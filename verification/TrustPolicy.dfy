/** Trust policies, evidence and decisions (internal/trustpolicy/policy.go). */
module TrustPolicy {
  import opened Common

  const PolicyProtocol := "liminal.trust-policy.v1.0"
  const EvidenceProtocol := "liminal.trust-evidence.v1.0"
  const DecisionProtocol := "liminal.trust-decision.v1.0"

  datatype Requirements = Requirements(
    externalIdentity: bool, portablePublication: bool, hardwareBacked: bool, remoteHardwareAttestation: bool)

  datatype PolicyMaterial = PolicyMaterial(protocol: string, policyId: string, requirements: Requirements)

  datatype Policy = Policy(material: PolicyMaterial, policyHash: Digest<PolicyMaterial>)

  datatype EvidenceMaterial = EvidenceMaterial(
    protocol: string, externalIdentityVerified: bool, portablePublicationVerified: bool, hardwareBacked: bool,
    remoteHardwareAttestation: bool, sourceProofHash: Digest<string>, discoveryHash: Digest<string>,
    portableProofHash: Digest<string>)

  datatype Evidence = Evidence(material: EvidenceMaterial, evidenceHash: Digest<EvidenceMaterial>)

  datatype DecisionMaterial = DecisionMaterial(
    protocol: string, policyId: string, policyHash: Digest<PolicyMaterial>, evidenceHash: Digest<EvidenceMaterial>,
    allowed: bool, unmet: seq<string>)

  datatype Decision = Decision(material: DecisionMaterial, decisionHash: Digest<DecisionMaterial>)

  datatype TrustError = BadPolicy | BadEvidence

  predicate PolicyMaterialOk(m: PolicyMaterial) {
    && m.protocol == PolicyProtocol && m.policyId != ""
    && (m.requirements.remoteHardwareAttestation ==> m.requirements.hardwareBacked)
  }

  predicate ValidPolicy(p: Policy) {
    PolicyMaterialOk(p.material) && p.policyHash.IsHex() && p.policyHash == Sha256(p.material)
  }

  function NewPolicy(policyId: string, r: Requirements): Option<Policy> {
    var m := PolicyMaterial(PolicyProtocol, policyId, r);
    if PolicyMaterialOk(m) then Some(Policy(m, Sha256(m))) else None
  }

  predicate EvidenceMaterialOk(m: EvidenceMaterial) {
    && m.protocol == EvidenceProtocol && m.sourceProofHash.IsHex()
    && (m.remoteHardwareAttestation ==> m.hardwareBacked)
    && (m.externalIdentityVerified ==> m.discoveryHash.IsHex())
    && (m.portablePublicationVerified ==> m.portableProofHash.IsHex())
  }

  predicate ValidEvidence(e: Evidence) {
    EvidenceMaterialOk(e.material) && e.evidenceHash.IsHex() && e.evidenceHash == Sha256(e.material)
  }

  /** What the evidence proves, in the vocabulary of requirements. */
  function Proven(e: Evidence): Requirements {
    Requirements(e.material.externalIdentityVerified, e.material.portablePublicationVerified,
                 e.material.hardwareBacked, e.material.remoteHardwareAttestation)
  }

  /** `strong` demands (or proves) everything `weak` demands. */
  predicate AtLeast(strong: Requirements, weak: Requirements) {
    && (!weak.externalIdentity || strong.externalIdentity)
    && (!weak.portablePublication || strong.portablePublication)
    && (!weak.hardwareBacked || strong.hardwareBacked)
    && (!weak.remoteHardwareAttestation || strong.remoteHardwareAttestation)
  }

  /** The name when the condition holds, and nothing otherwise. */
  function Named(condition: bool, name: string): seq<string> {
    if condition then [name] else []
  }

  function Unmet(r: Requirements, e: EvidenceMaterial): seq<string> {
    Named(r.externalIdentity && !e.externalIdentityVerified, "external_identity")
    + Named(r.portablePublication && !e.portablePublicationVerified, "portable_publication")
    + Named(r.hardwareBacked && !e.hardwareBacked, "hardware_backed")
    + Named(r.remoteHardwareAttestation && !e.remoteHardwareAttestation, "remote_hardware_attestation")
  }

  function Evaluate(p: Policy, e: Evidence): Result<Decision, TrustError> {
    if !ValidPolicy(p) then Err(BadPolicy)
    else if !ValidEvidence(e) then Err(BadEvidence)
    else
      var unmet := Unmet(p.material.requirements, e.material);
      var m := DecisionMaterial(DecisionProtocol, p.material.policyId, p.policyHash, e.evidenceHash, |unmet| == 0,
                                unmet);
      Ok(Decision(m, Sha256(m)))
  }

  predicate ValidDecision(d: Decision) {
    var m := d.material;
    && m.protocol == DecisionProtocol && m.policyId != "" && m.policyHash.IsHex() && m.evidenceHash.IsHex()
    && d.decisionHash.IsHex()
    && (m.allowed <==> |m.unmet| == 0)
    && d.decisionHash == Sha256(m)
  }

  /** VerifyDecision: the decision is re-evaluated and only the hashes are compared. */
  predicate DecisionVerified(d: Decision, p: Policy, e: Evidence) {
    ValidDecision(d) && Evaluate(p, e).Ok? && d.decisionHash == Evaluate(p, e).value.decisionHash
  }

  /** A policy is valid exactly when it is the one NewPolicy makes of its id and requirements. */
  lemma ValidPolicyIff(p: Policy)
    ensures ValidPolicy(p) <==> NewPolicy(p.material.policyId, p.material.requirements) == Some(p)
    ensures NewPolicy(p.material.policyId, p.material.requirements).Some? <==>
              && p.material.policyId != ""
              && (p.material.requirements.remoteHardwareAttestation ==> p.material.requirements.hardwareBacked)
  {
  }

  /** Evidence is valid exactly when it is hashed, names its sources, and claims no attestation without hardware. */
  lemma ValidEvidenceIff(e: Evidence)
    ensures ValidEvidence(e) <==>
              && e.evidenceHash == Sha256(e.material) && e.material.protocol == EvidenceProtocol
              && e.material.sourceProofHash.IsHex()
              && (e.material.externalIdentityVerified ==> e.material.discoveryHash.IsHex())
              && (e.material.portablePublicationVerified ==> e.material.portableProofHash.IsHex())
              && !(e.material.remoteHardwareAttestation && !e.material.hardwareBacked)
  {
  }

  /** The evidence gets a decision under the policy, and the decision allows. */
  ghost predicate Allows(p: Policy, e: Evidence) {
    Evaluate(p, e).Ok? && Evaluate(p, e).value.material.allowed
  }

  /** One allows exactly when policy and evidence are valid and each thing required was verified. */
  lemma AllowsIff(p: Policy, e: Evidence)
    ensures Evaluate(p, e).Ok? <==> ValidPolicy(p) && ValidEvidence(e)
    ensures Allows(p, e) <==>
              && ValidPolicy(p) && ValidEvidence(e)
              && (p.material.requirements.externalIdentity ==> e.material.externalIdentityVerified)
              && (p.material.requirements.portablePublication ==> e.material.portablePublicationVerified)
              && (p.material.requirements.hardwareBacked ==> e.material.hardwareBacked)
              && (p.material.requirements.remoteHardwareAttestation ==> e.material.remoteHardwareAttestation)
  {
    hide ValidPolicy, ValidEvidence;
    if ValidPolicy(p) && ValidEvidence(e) { AllowedIffProven(p, e); }
  }

  /** A decision allows exactly when the evidence proves every requirement. */
  lemma AllowedIffProven(p: Policy, e: Evidence)
    requires ValidPolicy(p) && ValidEvidence(e)
    ensures Evaluate(p, e).Ok?
    ensures Evaluate(p, e).value.material.allowed <==> AtLeast(Proven(e), p.material.requirements)
  {
    var unmet := Unmet(p.material.requirements, e.material);
    if !AtLeast(Proven(e), p.material.requirements) { assert |unmet| > 0; }
  }

  /** The reasons given are exactly the requirements the evidence does not prove, each once. */
  lemma UnmetNames(r: Requirements, e: EvidenceMaterial)
    ensures "external_identity" in Unmet(r, e) <==> r.externalIdentity && !e.externalIdentityVerified
    ensures "portable_publication" in Unmet(r, e) <==> r.portablePublication && !e.portablePublicationVerified
    ensures "hardware_backed" in Unmet(r, e) <==> r.hardwareBacked && !e.hardwareBacked
    ensures "remote_hardware_attestation" in Unmet(r, e) <==>
              r.remoteHardwareAttestation && !e.remoteHardwareAttestation
    ensures Distinct(Unmet(r, e))
  {
    var a := r.externalIdentity && !e.externalIdentityVerified;
    var b := r.portablePublication && !e.portablePublicationVerified;
    var c := r.hardwareBacked && !e.hardwareBacked;
    var d := r.remoteHardwareAttestation && !e.remoteHardwareAttestation;
    assert [] + Named(a, "external_identity") == Named(a, "external_identity");
    NamedAfter([], a, "external_identity");
    NamedAfter(Named(a, "external_identity"), b, "portable_publication");
    NamedAfter(Named(a, "external_identity") + Named(b, "portable_publication"), c, "hardware_backed");
    NamedAfter(Named(a, "external_identity") + Named(b, "portable_publication") + Named(c, "hardware_backed"), d,
               "remote_hardware_attestation");
  }

  lemma NamedAfter(names: seq<string>, condition: bool, name: string)
    requires Distinct(names) && name !in names
    ensures Distinct(names + Named(condition, name))
    ensures forall x :: x in names + Named(condition, name) <==> x in names || (condition && x == name)
  {
  }

  /** Hash comparison is enough: a decision verifies for a policy and evidence exactly when Evaluate returns it. */
  lemma VerifiedIffEvaluated(d: Decision, p: Policy, e: Evidence)
    ensures DecisionVerified(d, p, e) <==> Evaluate(p, e) == Ok(d)
  {
  }

  /** A verified decision belongs to one policy and one piece of evidence. */
  lemma DecisionPinsInputs(d: Decision, p: Policy, e: Evidence, q: Policy, f: Evidence)
    requires DecisionVerified(d, p, e) && DecisionVerified(d, q, f)
    ensures p == q && e == f
  {
  }

  /** Evidence allowed under a policy is allowed under every policy that demands no more. */
  lemma WeakerPolicyAllows(strong: Policy, weak: Policy, e: Evidence)
    requires ValidPolicy(weak) && AtLeast(strong.material.requirements, weak.material.requirements)
    requires Evaluate(strong, e).Ok? && Evaluate(strong, e).value.material.allowed
    ensures Evaluate(weak, e).Ok? && Evaluate(weak, e).value.material.allowed
  {
    AllowedIffProven(strong, e);
    AllowedIffProven(weak, e);
  }
}
