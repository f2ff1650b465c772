/**
  Proof envelopes and their independent replay (internal/mirror/metro_adapter.go,
  proof_envelope.go, replay_verifier.go).
 */
module ProofEnvelopes {
  import opened Common
  import opened ProofAuthority
  import Metro

  const ProofEnvelopeProtocol := "mirror.proof-envelope.v0.1"
  const Verified := "VERIFIED"
  const ReplayReportProtocol := "mirror.replay-report.v0.1"
  const Reproduced := "REPRODUCED"
  const Rejected := "REJECTED"

  datatype Claim = Claim(id: string, actionId: string, valueHash: Digest<Json>, irreversible: bool)

  datatype ReceiptProof = ReceiptProof(
    protocol: string, receiptId: string, actionId: string, routeId: string, executorId: string, status: string,
    inputHash: Digest<Json>, resultHash: Digest<Json>, resultRef: string)

  datatype ProofEnvelope = ProofEnvelope(
    protocol: string, claim: Claim, actionKind: string, receipt: ReceiptProof, authority: AuthorityProof,
    verificationStatus: string)

  /** The original artifacts an envelope was made from. */
  datatype Sources = Sources(packet: Metro.Packet, route: Metro.Route, result: Object, receipt: Metro.Receipt,
                             policy: AuthorityPolicy)

  predicate ClaimComplete(c: Claim) {
    c.id != "" && c.actionId != "" && c.valueHash != Empty
  }

  predicate ValidEnvelope(e: ProofEnvelope) {
    var r, a := e.receipt, e.authority;
    && e.protocol == ProofEnvelopeProtocol && e.verificationStatus == Verified && ClaimComplete(e.claim)
    && e.actionKind != ""
    && r.protocol == Metro.ReceiptProtocol && r.status == "SUCCEEDED"
    && r.receiptId != "" && r.routeId != "" && r.executorId != "" && r.resultRef != ""
    && r.inputHash.IsHex() && r.resultHash.IsHex()
    && r.actionId == e.claim.actionId && r.resultHash == e.claim.valueHash
    && a.policyId != "" && a.policyRef != "" && a.policyHash.IsHex()
    && a.actionKind == e.actionKind && a.executorId == r.executorId
  }

  /** EvidenceFromVerifiedReceipt's checks: when a receipt may be promoted to external evidence for a claim. */
  predicate Promotable(text: PolicyText, claim: Claim, s: Sources) {
    && ClaimComplete(claim) && claim.actionId == s.packet.actionId
    && s.receipt.protocol == Metro.ReceiptProtocol && s.receipt.status == "SUCCEEDED"
    && s.receipt.receiptId != "" && s.receipt.resultRef != ""
    && Metro.Verify(s.packet, s.route, s.result, s.receipt).Pass?
    && s.receipt.actionId == claim.actionId && s.receipt.resultHash == claim.valueHash
    && Prove(text, s.policy, s.packet.action.kind, s.receipt.executorId).Some?
  }

  function ProofOf(r: Metro.Receipt): ReceiptProof {
    ReceiptProof(r.protocol, r.receiptId, r.actionId, r.routeId, r.executorId, r.status, r.inputHash, r.resultHash,
                 r.resultRef)
  }

  /** BuildProofEnvelope. */
  function Build(text: PolicyText, claim: Claim, s: Sources): Option<ProofEnvelope> {
    if !Promotable(text, claim, s) then None
    else
      var proof := Prove(text, s.policy, s.packet.action.kind, s.receipt.executorId).value;
      var e := ProofEnvelope(ProofEnvelopeProtocol, claim, s.packet.action.kind, ProofOf(s.receipt), proof, Verified);
      if ValidEnvelope(e) then Some(e) else None
  }

  /** The policy is complete and lists the executor of the receipt for the packet's action. */
  ghost predicate ExecutorListed(s: Sources) {
    var p, kind := s.policy, s.packet.action.kind;
    && p.id != "" && p.policyRef != "" && p.protocol in {"", AuthorityPolicyProtocol}
    && (forall a | a in p.executorsByAction ::
          a != "" && |p.executorsByAction[a]| > 0 && "" !in p.executorsByAction[a])
    && kind in p.executorsByAction && s.receipt.executorId in p.executorsByAction[kind]
  }

  /** The receipt reports success of the packet's action on the routed, allowed target, with these inputs and result. */
  ghost predicate Succeeded(s: Sources) {
    var r := s.receipt;
    && r.protocol == Metro.ReceiptProtocol && r.status == "SUCCEEDED"
    && r.receiptId != "" && r.routeId != "" && r.executorId != "" && r.resultRef != ""
    && r.actionId == s.packet.actionId && r.routeId == s.route.routeId
    && r.executorId == s.route.selectedTarget && r.executorId in s.packet.allowedTargets
    && r.inputHash == Sha256(Obj(s.packet.action.inputs)) && r.resultHash == Sha256(Obj(s.result))
  }

  /** An envelope is built exactly for a successful receipt of a listed executor whose result is the claimed value. */
  lemma BuildsIff(text: PolicyText, claim: Claim, s: Sources)
    ensures Build(text, claim, s).Some? <==>
              && Succeeded(s) && ExecutorListed(s)
              && claim.id != "" && claim.actionId != "" && claim.actionId == s.packet.actionId
              && claim.valueHash == Sha256(Obj(s.result))
    ensures Build(text, claim, s).Some? ==>
              && Canonical(s.policy).Some?
              && var e := Build(text, claim, s).value;
                 && e.claim == claim && e.actionKind == s.packet.action.kind
                 && e.receipt == ReceiptProof(
                      Metro.ReceiptProtocol, s.receipt.receiptId, s.packet.actionId, s.route.routeId,
                      s.route.selectedTarget, "SUCCEEDED", s.receipt.inputHash, s.receipt.resultHash,
                      s.receipt.resultRef)
                 && e.authority == AuthorityProof(s.policy.id, s.policy.policyRef,
                                                  Sha256(text(Canonical(s.policy).value)), s.packet.action.kind,
                                                  s.receipt.executorId)
  {
    ProvesIffListed(text, s.policy, s.packet.action.kind, s.receipt.executorId);
    hide Prove, WellFormed;
  }

  // ---- replay ----

  datatype ReplayCheck = ReplayCheck(name: string, passed: bool)

  datatype ReplayReport = ReplayReport(protocol: string, status: string, claimId: string, actionId: string,
                                       checks: seq<ReplayCheck>)

  const StepNames: seq<string> := [
    "envelope.validate", "source.protocols", "packet.binding", "route.binding", "receipt.binding", "metro.verify",
    "claim.result", "authority.replay"]

  /** What each step of the replay demands. */
  predicate StepHolds(text: PolicyText, e: ProofEnvelope, s: Sources, step: nat) {
    match step
    case 0 => ValidEnvelope(e)
    case 1 =>
      s.packet.protocol == Metro.PacketProtocol && s.route.protocol == Metro.RouteProtocol
        && s.receipt.protocol == Metro.ReceiptProtocol
    case 2 => s.packet.actionId == e.claim.actionId && s.packet.action.kind == e.actionKind
    case 3 =>
      s.route.actionId == s.packet.actionId && s.route.routeId == e.receipt.routeId
        && s.route.selectedTarget == e.receipt.executorId
    case 4 => ProofOf(s.receipt) == e.receipt
    case 5 => Metro.Verify(s.packet, s.route, s.result, s.receipt).Pass?
    case 6 => Metro.HashObject(s.result) == e.claim.valueHash
    case 7 => Prove(text, s.policy, s.packet.action.kind, s.receipt.executorId) == Some(e.authority)
    case _ => true
  }

  /** Every step holds. */
  ghost predicate Reproducible(text: PolicyText, e: ProofEnvelope, s: Sources) {
    forall i: nat :: StepHolds(text, e, s, i)
  }

  /** The first `n` checks, of which only the last may have failed. */
  function Checks(n: nat, lastPassed: bool): seq<ReplayCheck>
    requires n <= |StepNames|
  {
    seq(n, i requires 0 <= i < n => ReplayCheck(StepNames[i], i < n - 1 || lastPassed))
  }

  function ReproducedReport(e: ProofEnvelope): ReplayReport {
    ReplayReport(ReplayReportProtocol, Reproduced, e.claim.id, e.claim.actionId, Checks(|StepNames|, true))
  }

  /** The report while replay is under way: rejected until the last step has passed. */
  function Progress(e: ProofEnvelope, checks: seq<ReplayCheck>): ReplayReport {
    ReplayReport(ReplayReportProtocol, Rejected, e.claim.id, e.claim.actionId, checks)
  }

  /** Step n is the first that fails, and the report says so. */
  ghost predicate StopsAt(text: PolicyText, e: ProofEnvelope, s: Sources, report: ReplayReport, n: nat) {
    && n < |StepNames| && (forall i: nat | i < n :: StepHolds(text, e, s, i)) && !StepHolds(text, e, s, n)
    && report == Progress(e, Checks(n + 1, false))
  }

  /** Replay stops at the first step that fails, and reports exactly the steps it took. */
  method Replay(text: PolicyText, e: ProofEnvelope, s: Sources) returns (report: ReplayReport, ok: bool)
    ensures ok <==> Reproducible(text, e, s)
    ensures ok ==> report == ReproducedReport(e)
    ensures !ok ==> exists n :: StopsAt(text, e, s, report, n)
  {
    AllSteps(text, e, s);
    hide StepHolds, Reproducible;
    var checks: seq<ReplayCheck> := [];
    if !StepHolds(text, e, s, 0) { return Rejection(text, e, s, checks, 0), false; }
    checks := PassedCheck(checks, 0);
    if !StepHolds(text, e, s, 1) { return Rejection(text, e, s, checks, 1), false; }
    checks := PassedCheck(checks, 1);
    if !StepHolds(text, e, s, 2) { return Rejection(text, e, s, checks, 2), false; }
    checks := PassedCheck(checks, 2);
    if !StepHolds(text, e, s, 3) { return Rejection(text, e, s, checks, 3), false; }
    checks := PassedCheck(checks, 3);
    if !StepHolds(text, e, s, 4) { return Rejection(text, e, s, checks, 4), false; }
    checks := PassedCheck(checks, 4);
    if !StepHolds(text, e, s, 5) { return Rejection(text, e, s, checks, 5), false; }
    checks := PassedCheck(checks, 5);
    if !StepHolds(text, e, s, 6) { return Rejection(text, e, s, checks, 6), false; }
    checks := PassedCheck(checks, 6);
    if !StepHolds(text, e, s, 7) { return Rejection(text, e, s, checks, 7), false; }
    checks := PassedCheck(checks, 7);
    return Progress(e, checks).(status := Reproduced), true;
  }

  /** One passed check more. */
  function PassedCheck(checks: seq<ReplayCheck>, n: nat): (r: seq<ReplayCheck>)
    requires n < |StepNames| && checks == Checks(n, true)
    ensures r == Checks(n + 1, true)
  {
    checks + [ReplayCheck(StepNames[n], true)]
  }

  /** The failed check closes the report. */
  function Rejection(text: PolicyText, e: ProofEnvelope, s: Sources, checks: seq<ReplayCheck>,
                     n: nat): (r: ReplayReport)
    requires n < |StepNames| && checks == Checks(n, true)
    requires (forall i: nat | i < n :: StepHolds(text, e, s, i)) && !StepHolds(text, e, s, n)
    ensures StopsAt(text, e, s, r, n)
  {
    assert checks + [ReplayCheck(StepNames[n], false)] == Checks(n + 1, false);
    Progress(e, checks + [ReplayCheck(StepNames[n], false)])
  }

  /** The eight steps spelled out. */
  lemma AllSteps(text: PolicyText, e: ProofEnvelope, s: Sources)
    ensures Reproducible(text, e, s) <==>
              && StepHolds(text, e, s, 0) && StepHolds(text, e, s, 1) && StepHolds(text, e, s, 2)
              && StepHolds(text, e, s, 3)
              && StepHolds(text, e, s, 4) && StepHolds(text, e, s, 5) && StepHolds(text, e, s, 6)
              && StepHolds(text, e, s, 7)
  {
    hide ValidEnvelope, Prove, Metro.Verify;
  }

  /**
    Replay is exact.  It accepts an envelope precisely when building one for the
    same claim and sources gives that very envelope, and the packet and route
    carry their protocols and the same action id.
   */
  lemma ReplayExact(text: PolicyText, e: ProofEnvelope, s: Sources)
    ensures Reproducible(text, e, s) <==>
              && Build(text, e.claim, s) == Some(e)
              && s.packet.protocol == Metro.PacketProtocol && s.route.protocol == Metro.RouteProtocol
              && s.route.actionId == s.packet.actionId
  {
    AllSteps(text, e, s);
    hide Reproducible;
    if Build(text, e.claim, s) == Some(e) {
      assert Metro.HashObject(s.result) == s.receipt.resultHash;
    }
    if Reproducible(text, e, s) {
      assert e.authority == Prove(text, s.policy, s.packet.action.kind, s.receipt.executorId).value;
      assert e == ProofEnvelope(ProofEnvelopeProtocol, e.claim, s.packet.action.kind, ProofOf(s.receipt), e.authority,
                                Verified);
    }
  }

  /** What replay accepts was certified by an executor the policy lists for the envelope's action. */
  lemma ReplayedExecutorIsListed(text: PolicyText, e: ProofEnvelope, s: Sources)
    requires Reproducible(text, e, s)
    ensures Succeeded(s) && ExecutorListed(s)
    ensures e.actionKind in s.policy.executorsByAction
            && e.receipt.executorId in s.policy.executorsByAction[e.actionKind]
  {
    ReplayExact(text, e, s);
    BuildsIff(text, e.claim, s);
  }

  /** Two envelopes reproduced from the same sources for the same claim are one envelope. */
  lemma ReplayDeterminesEnvelope(text: PolicyText, e: ProofEnvelope, f: ProofEnvelope, s: Sources)
    requires Reproducible(text, e, s) && Reproducible(text, f, s)
    requires e.claim.id == f.claim.id && e.claim.irreversible == f.claim.irreversible
    ensures e == f
  {
    AllSteps(text, e, s);
    AllSteps(text, f, s);
    ReplayExact(text, e, s);
    ReplayExact(text, f, s);
    assert e.claim == f.claim;
  }

  /**
    The route condition is needed: a receipt can be promoted under a route for
    another action, because the receipt check never compares the two action ids.
   */
  lemma UnboundRouteBuilds(text: PolicyText) returns (claim: Claim, s: Sources)
    ensures s.packet.protocol == Metro.PacketProtocol && s.route.protocol == Metro.RouteProtocol
    ensures Build(text, claim, s).Some? && s.route.actionId != s.packet.actionId
    ensures !Reproducible(text, Build(text, claim, s).value, s)
  {
    var packet := Metro.Packet(Metro.PacketProtocol, "a", "agent", "", "", Metro.Action("kind", map[]), ["x"], [],
                               Metro.Constraints(0, false), "");
    var route := Metro.Route(Metro.RouteProtocol, "r", "another", "", "", "x", [], 1.0, "", "");
    var receipt := Metro.Receipt(Metro.ReceiptProtocol, "id", "a", "r", "x", "SUCCEEDED", "sha256",
                                 Metro.HashObject(map[]), Metro.HashObject(map[]), "ref", "", "");
    var policy := AuthorityPolicy(AuthorityPolicyProtocol, "p", "p", map["kind" := ["x"]]);
    claim := Claim("c", "a", Metro.HashObject(map[]), false);
    s := Sources(packet, route, map[], receipt, policy);
    assert "x" in packet.allowedTargets && "x" in policy.executorsByAction["kind"];
    assert RuleOk("kind", policy.executorsByAction["kind"]);
    assert Canonical(policy).Some?;
    assert Promotable(text, claim, s);
    if Reproducible(text, Build(text, claim, s).value, s) { ReplayExact(text, Build(text, claim, s).value, s); }
  }

  /** Of the policy, a step sees only the proof it gives. */
  lemma StepSeesProofOnly(text: PolicyText, e: ProofEnvelope, s: Sources, p: AuthorityPolicy, step: nat)
    requires Prove(text, p, s.packet.action.kind, s.receipt.executorId) ==
             Prove(text, s.policy, s.packet.action.kind, s.receipt.executorId)
    ensures StepHolds(text, e, s.(policy := p), step) <==> StepHolds(text, e, s, step)
  {
    hide ValidEnvelope, Prove, Metro.Verify, ProofOf, Metro.HashObject;
  }

  /** Replaying against the canonical policy is replaying against the policy. */
  lemma CanonicalReplaysTheSame(text: PolicyText, e: ProofEnvelope, s: Sources)
    requires Canonical(s.policy).Some?
    ensures Reproducible(text, e, s.(policy := Canonical(s.policy).value)) <==> Reproducible(text, e, s)
  {
    hide Prove, StepHolds, Canonical;
    var p := Canonical(s.policy).value;
    CanonicalProvesTheSame(text, s.policy, s.packet.action.kind, s.receipt.executorId);
    forall step: nat ensures StepHolds(text, e, s.(policy := p), step) <==> StepHolds(text, e, s, step) {
      StepSeesProofOnly(text, e, s, p, step);
    }
  }
}
