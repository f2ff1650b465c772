/**
  Signed manifests and the rotations between them (internal/policyauthority/signed.go,
  rotation.go), and what a chain of rotations cannot hide.
 */
module PolicyRotation {
  import opened Common
  import opened Ordering
  import opened Signatures
  import opened TrustPolicy
  import opened PolicyManifest

  const SignedManifestProtocol := "liminal.policy-authority.signed-manifest.v1.1"
  const TrustRootProtocol := "liminal.policy-authority.trust-root.v1.1"
  const RotationProtocol := "liminal.policy-authority.rotation.v1.1"

  datatype SignedMaterial = SignedMaterial(
    protocol: string, manifest: Manifest, issuerId: string, issuerKeyId: Digest<string>, issuerPublicKey: string,
    signatureAlgorithm: string, issuedAt: string)

  datatype SignedHashMaterial = SignedHashMaterial(material: SignedMaterial, signature: string)

  datatype SignedManifest = SignedManifest(material: SignedMaterial, signature: string,
                                           signedHash: Digest<SignedHashMaterial>)

  datatype TrustRoot = TrustRoot(
    protocol: string, authorityId: string, rootGeneration: Uint64, rootManifestHash: Digest<ManifestMaterial>,
    rootSignedHash: Digest<SignedHashMaterial>, issuerId: string, issuerKeyId: Digest<string>)

  datatype RotationMaterial = RotationMaterial(
    protocol: string, authorityId: string, fromGeneration: Uint64, toGeneration: Uint64,
    fromManifestHash: Digest<ManifestMaterial>, toManifestHash: Digest<ManifestMaterial>,
    fromSignedHash: Digest<SignedHashMaterial>, toSignedHash: Digest<SignedHashMaterial>,
    fromIssuerId: string, fromIssuerKeyId: Digest<string>, toIssuerId: string, toIssuerKeyId: Digest<string>,
    allowWeakening: bool, weakenedOperations: seq<string>, issuedAt: string, signatureAlgorithm: string)

  datatype RotationHashMaterial = RotationHashMaterial(material: RotationMaterial, signature: string)

  datatype Rotation = Rotation(material: RotationMaterial, signature: string,
                               rotationHash: Digest<RotationHashMaterial>)

  datatype Message = ManifestMessage(manifest: SignedMaterial) | RotationMessage(rotation: RotationMaterial)

  type Signing = Scheme<Message>

  function BindingsOf(s: SignedManifest): seq<Binding> { s.material.manifest.material.bindings }

  function GenerationOf(s: SignedManifest): Uint64 { s.material.manifest.material.generation }

  function AuthorityOf(s: SignedManifest): string { s.material.manifest.material.authorityId }

  // ---- signed manifests ----

  /**
    A signed manifest verifies exactly when it is the record SignManifest writes for its manifest, issuer,
    key and time, with a signature that verifies under that key.
   */
  lemma SelfVerifiedIff(x: Signing, s: SignedManifest)
    ensures SelfVerified(x, s) <==>
              var m := s.material;
              && ValidManifest(m.manifest) && m.issuerId != "" && m.issuedAt != "" && m.issuerPublicKey != ""
              && x.decodeKey(m.issuerPublicKey).Some?
              && var key := x.decodeKey(m.issuerPublicKey).value;
                 && m == SignedMaterial(SignedManifestProtocol, m.manifest, m.issuerId, Sha256(key), m.issuerPublicKey,
                                        Ed25519, m.issuedAt)
                 && x.verified(key, ManifestMessage(m), s.signature)
                 && s == SignedManifest(m, s.signature, Sha256(SignedHashMaterial(m, s.signature)))
  {
    hide ValidManifest;
  }

  ghost predicate SelfVerified(x: Signing, s: SignedManifest) {
    var m := s.material;
    && m.protocol == SignedManifestProtocol && m.signatureAlgorithm == Ed25519 && ValidManifest(m.manifest)
    && m.issuerId != "" && m.issuerKeyId != Empty && m.issuerPublicKey != "" && m.issuedAt != ""
    && x.decodeKey(m.issuerPublicKey).Some? && Sha256(x.decodeKey(m.issuerPublicKey).value) == m.issuerKeyId
    && x.verified(x.decodeKey(m.issuerPublicKey).value, ManifestMessage(m), s.signature)
    && s.signedHash == Sha256(SignedHashMaterial(m, s.signature))
  }

  method SelfVerify(x: Signing, s: SignedManifest) returns (ok: bool)
    ensures ok <==> SelfVerified(x, s)
  {
    var m := s.material;
    if m.protocol != SignedManifestProtocol || m.signatureAlgorithm != Ed25519 { return false; }
    var valid := Validate(m.manifest);
    if valid.Fail? { return false; }
    if m.issuerId == "" || m.issuerKeyId == Empty || m.issuerPublicKey == "" || m.issuedAt == "" { return false; }
    var key := x.decodeKey(m.issuerPublicKey);
    if key.None? || Sha256(key.value) != m.issuerKeyId { return false; }
    if !x.verified(key.value, ManifestMessage(m), s.signature) { return false; }
    return s.signedHash.IsHex() && s.signedHash == Sha256(SignedHashMaterial(m, s.signature));
  }

  /** SignManifest; `at` is the time stamp. */
  ghost function SignManifest(x: Signing, m: Manifest, issuerId: string, privateKey: string,
                              at: string): Option<SignedManifest> {
    if !ValidManifest(m) || issuerId == "" || x.publicKey(privateKey).None? then None
    else
      var key := x.publicKey(privateKey).value;
      var material := SignedMaterial(SignedManifestProtocol, m, issuerId, Sha256(key), x.encodeKey(key), Ed25519, at);
      var signature := x.sign(privateKey, ManifestMessage(material));
      Some(SignedManifest(material, signature, Sha256(SignedHashMaterial(material, signature))))
  }

  /** Under a lawful scheme what is signed verifies, and carries the signer's key. */
  lemma SignedManifestVerifies(x: Signing, m: Manifest, issuerId: string, privateKey: string, at: string)
    requires x.Lawful() && at != "" && SignManifest(x, m, issuerId, privateKey, at).Some?
    ensures SelfVerified(x, SignManifest(x, m, issuerId, privateKey, at).value)
    ensures SignManifest(x, m, issuerId, privateKey, at).value.material.issuerKeyId ==
              Sha256(x.publicKey(privateKey).value)
  {
    var s := SignManifest(x, m, issuerId, privateKey, at).value;
    hide ValidManifest;
    assert x.decodeKey(s.material.issuerPublicKey) == x.publicKey(privateKey);
    assert s.signature == x.sign(privateKey, ManifestMessage(s.material));
    assert x.verified(x.publicKey(privateKey).value, ManifestMessage(s.material), s.signature);
  }

  /** A manifest is signed exactly when it is valid, by a named issuer with a usable key. */
  lemma SignsManifestIff(x: Signing, m: Manifest, issuerId: string, privateKey: string, at: string)
    ensures SignManifest(x, m, issuerId, privateKey, at).Some? <==>
              ValidManifest(m) && issuerId != "" && x.publicKey(privateKey).Some?
    ensures SignManifest(x, m, issuerId, privateKey, at).Some? ==>
              var s := SignManifest(x, m, issuerId, privateKey, at).value;
              s.material.manifest == m && s.material.issuerId == issuerId && s.material.issuedAt == at
  {
    hide ValidManifest;
  }

  /** The signed hash fixes the signed manifest. */
  lemma SignedHashFixesManifest(x: Signing, a: SignedManifest, b: SignedManifest)
    requires SelfVerified(x, a) && SelfVerified(x, b) && a.signedHash == b.signedHash
    ensures a == b
  {
  }

  predicate ValidRoot(r: TrustRoot) {
    && r.protocol == TrustRootProtocol && r.authorityId != "" && r.rootGeneration != 0 && r.issuerId != ""
    && r.rootManifestHash.IsHex() && r.rootSignedHash.IsHex() && r.issuerKeyId.IsHex()
  }

  predicate RootMatches(r: TrustRoot, s: SignedManifest) {
    var m := s.material;
    r == TrustRoot(r.protocol, AuthorityOf(s), GenerationOf(s), m.manifest.manifestHash, s.signedHash, m.issuerId,
                   m.issuerKeyId)
  }

  // ---- weakening ----

  /** `next` still binds the class of `b` to the same contract and demands at least as much. */
  predicate KeptBy(b: Binding, n: Binding) {
    && n.operationClass == b.operationClass && ContractOf(n) == ContractOf(b)
    && AtLeast(n.policy.material.requirements, b.policy.material.requirements)
  }

  ghost predicate Kept(b: Binding, next: seq<Binding>) {
    exists n :: n in next && KeptBy(b, n)
  }

  /** The same class and contract, and whatever evidence `n` allows, `b` allows. */
  ghost predicate NoLoss(b: Binding, n: Binding) {
    && n.operationClass == b.operationClass
    && n.actionKind == b.actionKind && n.target == b.target && n.sideEffect == b.sideEffect
    && forall e | Allows(n.policy, e) :: Allows(b.policy, e)
  }

  /** Evidence that proves just what a policy requires. */
  function JustEnough(r: Requirements): Evidence {
    var m := EvidenceMaterial(EvidenceProtocol, r.externalIdentity, r.portablePublication, r.hardwareBacked,
                              r.remoteHardwareAttestation, Sha256(""), Sha256(""), Sha256(""));
    Evidence(m, Sha256(m))
  }

  /** Comparing requirements decides the meaning: a binding is kept exactly when nothing new is let through. */
  lemma KeptIffNoLoss(b: Binding, n: Binding)
    requires BindingOk(b) && BindingOk(n)
    ensures KeptBy(b, n) <==> NoLoss(b, n)
  {
    if KeptBy(b, n) {
      forall e | Allows(n.policy, e) ensures Allows(b.policy, e) { WeakerPolicyAllows(n.policy, b.policy, e); }
    }
    if NoLoss(b, n) {
      var e := JustEnough(n.policy.material.requirements);
      AllowsIff(n.policy, e);
      AllowsIff(b.policy, e);
      assert Allows(n.policy, e);
    }
  }

  /** The class is bound no longer, or to another contract, or to a policy that lets more through. */
  ghost predicate Lost(b: Binding, next: seq<Binding>) {
    forall n | n in next :: !NoLoss(b, n)
  }

  lemma LostIffNotKept(b: Binding, next: seq<Binding>)
    requires BindingOk(b) && AllOk(next)
    ensures Lost(b, next) <==> !Kept(b, next)
  {
    hide BindingOk, KeptBy, NoLoss;
    forall n | n in next ensures KeptBy(b, n) <==> NoLoss(b, n) { KeptIffNoLoss(b, n); }
  }

  /** A class that keeps its contract and only gains requirements is never listed. */
  lemma StrengthenedIsNotListed(bs: seq<Binding>, next: seq<Binding>, b: Binding, n: Binding)
    requires ClassesDistinct(bs) && b in bs && n in next && ContractOf(n) == ContractOf(b)
    requires n.operationClass == b.operationClass
    requires var weak, strong := b.policy.material.requirements, n.policy.material.requirements;
             && (weak.externalIdentity ==> strong.externalIdentity)
             && (weak.portablePublication ==> strong.portablePublication)
             && (weak.hardwareBacked ==> strong.hardwareBacked)
             && (weak.remoteHardwareAttestation ==> strong.remoteHardwareAttestation)
    ensures b.operationClass !in WeakenedIn(bs, next)
  {
    WeakenedExact(bs, next, b.operationClass);
    assert KeptBy(b, n);
    forall c | c in bs && c.operationClass == b.operationClass ensures Kept(c, next) { SameClassSameBinding(bs, b, c); }
  }

  /** The classes of `bs` that `next` does not keep, in order. */
  ghost function WeakenedIn(bs: seq<Binding>, next: seq<Binding>): seq<string> {
    if bs == [] then []
    else
      var n := |bs| - 1;
      WeakenedIn(bs[..n], next) + (if Kept(bs[n], next) then [] else [bs[n].operationClass])
  }

  /** The list names a class exactly when its binding is not kept. */
  lemma {:induction false} WeakenedExact(bs: seq<Binding>, next: seq<Binding>, c: string)
    ensures c in WeakenedIn(bs, next) <==> exists b :: b in bs && b.operationClass == c && !Kept(b, next)
  {
    if bs != [] {
      var init, last := bs[..|bs| - 1], bs[|bs| - 1];
      WeakenedExact(init, next, c);
      assert forall b :: b in bs <==> b in init || b == last;
    }
  }

  /** Over a canonical list the weakened classes come out sorted. */
  lemma {:induction false} WeakenedAscends(bs: seq<Binding>, next: seq<Binding>)
    requires Ascending(Keys(ClassOf, bs))
    ensures Ascending(WeakenedIn(bs, next))
    ensures forall c | c in WeakenedIn(bs, next) :: exists i :: 0 <= i < |bs| && bs[i].operationClass == c
  {
    if bs != [] {
      var init, last := bs[..|bs| - 1], bs[|bs| - 1];
      var k := Keys(ClassOf, bs);
      assert Keys(ClassOf, init) == k[..|init|];
      WeakenedAscends(init, next);
      var w := WeakenedIn(init, next);
      forall i | 0 <= i < |w| ensures Less(w[i], last.operationClass) {
        assert w[i] in w;
        var j :| 0 <= j < |init| && init[j].operationClass == w[i];
        assert Less(k[j], k[|init|]);
      }
      forall c | c in w ensures exists i :: 0 <= i < |bs| && bs[i].operationClass == c {
        var i :| 0 <= i < |init| && init[i].operationClass == c;
        assert bs[i].operationClass == c;
      }
      assert bs[|bs| - 1].operationClass == last.operationClass;
    }
  }

  /**
    weakenedOperations: each old class is resolved in the next manifest and its
    contract compared; the result is sorted.
   */
  method WeakenedOperations(current: Manifest, next: Manifest) returns (r: Option<seq<string>>)
    ensures r == if ValidManifest(current) && ValidManifest(next)
                 then Some(WeakenedIn(current.material.bindings, next.material.bindings)) else None
  {
    var validated := Validate(current);
    if validated.Fail? { return None; }
    validated := Validate(next);
    if validated.Fail? { return None; }
    var bindings, weakened := current.material.bindings, [];
    for i := 0 to |bindings|
      invariant weakened == WeakenedIn(bindings[..i], next.material.bindings)
    {
      assert bindings[..i + 1][..i] == bindings[..i];
      var lost := IsWeakened(bindings[i], next);
      if lost { weakened := weakened + [bindings[i].operationClass]; }
    }
    assert bindings[..|bindings|] == bindings;
    WeakenedAscends(bindings, next.material.bindings);
    assert Keys(Itself, weakened) == weakened;
    SortOfAscending(Itself, weakened);
    return Some(SortBy(Itself, weakened));
  }

  /** One turn of the loop: a binding is weakened exactly when the next manifest does not keep it. */
  method IsWeakened(b: Binding, next: Manifest) returns (weakened: bool)
    requires ValidManifest(next)
    ensures weakened <==> !Kept(b, next.material.bindings)
  {
    var bs := next.material.bindings;
    CanonicalClasses(bs);
    var policy := Resolve(next, b.operationClass);
    for i := 0 to |bs|
      invariant forall j | 0 <= j < i :: bs[j].operationClass != b.operationClass
    {
      if bs[i].operationClass == b.operationClass {
        assert BindingOk(bs[i]);
        LinearFinds(bs, b.operationClass, i);
        OnlyOneKeeps(b, bs, i);
        return || !AtLeast(policy.value.material.requirements, b.policy.material.requirements)
               || bs[i].actionKind != b.actionKind || bs[i].target != b.target || bs[i].sideEffect != b.sideEffect;
      }
    }
    return true;
  }

  lemma OnlyOneKeeps(b: Binding, bs: seq<Binding>, i: nat)
    requires ClassesDistinct(bs) && i < |bs| && bs[i].operationClass == b.operationClass
    ensures Kept(b, bs) <==> KeptBy(b, bs[i])
  {
    if Kept(b, bs) {
      var n :| n in bs && KeptBy(b, n);
      var j :| 0 <= j < |bs| && bs[j] == n;
    }
  }

  // ---- rotations ----

  /** Every field that must repeat the two signed manifests. */
  predicate Links(m: RotationMaterial, current: SignedManifest, next: SignedManifest) {
    var c, n := current.material, next.material;
    && m.authorityId == AuthorityOf(current) && m.authorityId == AuthorityOf(next)
    && m.fromGeneration == GenerationOf(current) && m.toGeneration == GenerationOf(next)
    && m.fromManifestHash == c.manifest.manifestHash && m.toManifestHash == n.manifest.manifestHash
    && m.fromSignedHash == current.signedHash && m.toSignedHash == next.signedHash
    && m.fromIssuerId == c.issuerId && m.fromIssuerKeyId == c.issuerKeyId
    && m.toIssuerId == n.issuerId && m.toIssuerKeyId == n.issuerKeyId
  }

  ghost predicate RotationVerified(x: Signing, r: Rotation, current: SignedManifest, next: SignedManifest) {
    var m := r.material;
    && SelfVerified(x, current) && SelfVerified(x, next)
    && m.protocol == RotationProtocol && m.signatureAlgorithm == Ed25519
    && GenerationOf(next) == GenerationOf(current) + 1 && Links(m, current, next)
    && m.weakenedOperations == WeakenedIn(BindingsOf(current), BindingsOf(next))
    && (m.weakenedOperations != [] ==> m.allowWeakening)
    && x.verified(x.decodeKey(current.material.issuerPublicKey).value, RotationMessage(m), r.signature)
    && r.rotationHash == Sha256(RotationHashMaterial(m, r.signature))
  }

  /** Rotation.Verify.  The generation check wraps like uint64, but no valid manifest has generation zero. */
  method VerifyRotation(x: Signing, r: Rotation, current: SignedManifest, next: SignedManifest) returns (ok: bool)
    ensures ok <==> RotationVerified(x, r, current, next)
  {
    hide ValidManifest, AtLeast, WeakenedIn;
    var m := r.material;
    var self := SelfVerify(x, current);
    if !self { return false; }
    self := SelfVerify(x, next);
    if !self { return false; }
    NextGeneration(current.material.manifest, next.material.manifest);
    if m.protocol != RotationProtocol || m.signatureAlgorithm != Ed25519 { return false; }
    if GenerationOf(next) != Successor(GenerationOf(current)) || !Links(m, current, next) { return false; }
    var weakened := WeakenedOperations(current.material.manifest, next.material.manifest);
    if weakened.None? || weakened.value != m.weakenedOperations { return false; }
    if |weakened.value| > 0 && !m.allowWeakening { return false; }
    if !x.verified(x.decodeKey(current.material.issuerPublicKey).value, RotationMessage(m), r.signature) {
      return false;
    }
    return r.rotationHash.IsHex() && r.rotationHash == Sha256(RotationHashMaterial(m, r.signature));
  }

  lemma NextGeneration(current: Manifest, next: Manifest)
    requires ValidManifest(next)
    ensures next.material.generation == Successor(current.material.generation) <==>
            next.material.generation == current.material.generation + 1
  {
  }

  /** When SignRotation agrees to sign. */
  ghost predicate MayRotate(x: Signing, current: SignedManifest, next: SignedManifest, privateKey: string,
                            allowWeakening: bool) {
    && SelfVerified(x, current) && SelfVerified(x, next)
    && AuthorityOf(current) == AuthorityOf(next) && GenerationOf(next) == GenerationOf(current) + 1
    && x.publicKey(privateKey).Some? && Sha256(x.publicKey(privateKey).value) == current.material.issuerKeyId
    && (WeakenedIn(BindingsOf(current), BindingsOf(next)) != [] ==> allowWeakening)
  }

  /** The rotation the current issuer signs from one manifest to the next. */
  function RotationFor(x: Signing, current: SignedManifest, next: SignedManifest, privateKey: string,
                       allowWeakening: bool, weakened: seq<string>, at: string): Rotation
  {
    var c, n := current.material, next.material;
    var m := RotationMaterial(
      RotationProtocol, AuthorityOf(current), GenerationOf(current), GenerationOf(next),
      c.manifest.manifestHash, n.manifest.manifestHash, current.signedHash, next.signedHash,
      c.issuerId, c.issuerKeyId, n.issuerId, n.issuerKeyId, allowWeakening, weakened, at, Ed25519);
    var signature := x.sign(privateKey, RotationMessage(m));
    Rotation(m, signature, Sha256(RotationHashMaterial(m, signature)))
  }

  lemma RotationForVerifies(x: Signing, current: SignedManifest, next: SignedManifest, privateKey: string,
                            allowWeakening: bool, weakened: seq<string>, at: string)
    requires x.Lawful() && MayRotate(x, current, next, privateKey, allowWeakening)
    requires weakened == WeakenedIn(BindingsOf(current), BindingsOf(next))
    ensures RotationVerified(x, RotationFor(x, current, next, privateKey, allowWeakening, weakened, at), current, next)
  {
    hide ValidManifest, WeakenedIn;
    var r := RotationFor(x, current, next, privateKey, allowWeakening, weakened, at);
    SignedByCurrent(x, current, privateKey, RotationMessage(r.material));
  }

  /**
    A rotation verifies exactly when it is the record the current issuer writes for
    this step, signed with the current key, and announces whatever it weakens.
   */
  lemma RotationVerifiedIff(x: Signing, r: Rotation, current: SignedManifest, next: SignedManifest)
    ensures RotationVerified(x, r, current, next) <==>
              var weakened := WeakenedIn(BindingsOf(current), BindingsOf(next));
              var written :=
                RotationFor(x, current, next, "", r.material.allowWeakening, weakened, r.material.issuedAt);
              && SelfVerified(x, current) && SelfVerified(x, next)
              && AuthorityOf(current) == AuthorityOf(next) && GenerationOf(next) == GenerationOf(current) + 1
              && (weakened == [] || r.material.allowWeakening) && r.material == written.material
              && SignedByKeyOf(x, current, RotationMessage(r.material), r.signature)
              && r.rotationHash == Sha256(RotationHashMaterial(r.material, r.signature))
  {
    hide ValidManifest, WeakenedIn;
  }

  predicate SignedByKeyOf(x: Signing, s: SignedManifest, m: Message, signature: string) {
    && x.decodeKey(s.material.issuerPublicKey).Some?
    && x.verified(x.decodeKey(s.material.issuerPublicKey).value, m, signature)
  }

  /** The holder of the current key can sign a step exactly when some rotation for it verifies. */
  lemma SignableIffVerifiable(x: Signing, current: SignedManifest, next: SignedManifest, privateKey: string,
                              allowWeakening: bool)
    requires x.Lawful() && x.publicKey(privateKey).Some?
    requires Sha256(x.publicKey(privateKey).value) == current.material.issuerKeyId
    ensures MayRotate(x, current, next, privateKey, allowWeakening) <==>
            exists r :: RotationVerified(x, r, current, next) && r.material.allowWeakening == allowWeakening
  {
    hide SelfVerified, WeakenedIn;
    if MayRotate(x, current, next, privateKey, allowWeakening) {
      var weakened := WeakenedIn(BindingsOf(current), BindingsOf(next));
      RotationForVerifies(x, current, next, privateKey, allowWeakening, weakened, "now");
      assert RotationFor(x, current, next, privateKey, allowWeakening, weakened, "now").material.allowWeakening ==
             allowWeakening;
    }
  }

  /**
    SignRotation refuses exactly when it should, and under a lawful scheme what
    it signs verifies: weakening needs the explicit flag, and is always listed.
   */
  method SignRotation(x: Signing, current: SignedManifest, next: SignedManifest, privateKey: string,
                      allowWeakening: bool, at: string)
    returns (r: Option<Rotation>)
    ensures r.Some? <==> MayRotate(x, current, next, privateKey, allowWeakening)
    ensures r.Some? && x.Lawful() ==> RotationVerified(x, r.value, current, next)
    ensures r.Some? ==>
              r.value == RotationFor(x, current, next, privateKey, allowWeakening,
                                     WeakenedIn(BindingsOf(current), BindingsOf(next)), at)
  {
    hide ValidManifest, AtLeast, WeakenedIn;
    var self := SelfVerify(x, current);
    if !self { return None; }
    self := SelfVerify(x, next);
    if !self { return None; }
    NextGeneration(current.material.manifest, next.material.manifest);
    if AuthorityOf(current) != AuthorityOf(next) { return None; }
    if GenerationOf(next) != Successor(GenerationOf(current)) { return None; }
    var key := x.publicKey(privateKey);
    if key.None? || Sha256(key.value) != current.material.issuerKeyId { return None; }
    var weakened := WeakenedOperations(current.material.manifest, next.material.manifest);
    if weakened.None? { return None; }
    if |weakened.value| > 0 && !allowWeakening { return None; }
    if x.Lawful() { RotationForVerifies(x, current, next, privateKey, allowWeakening, weakened.value, at); }
    return Some(RotationFor(x, current, next, privateKey, allowWeakening, weakened.value, at));
  }

  lemma SignedByCurrent(x: Signing, current: SignedManifest, privateKey: string, m: Message)
    requires x.Lawful() && SelfVerified(x, current) && x.publicKey(privateKey).Some?
    requires Sha256(x.publicKey(privateKey).value) == current.material.issuerKeyId
    ensures x.verified(x.decodeKey(current.material.issuerPublicKey).value, m, x.sign(privateKey, m))
  {
    assert Sha256(x.publicKey(privateKey).value) == Sha256(x.decodeKey(current.material.issuerPublicKey).value);
  }

  // ---- chains ----

  /** A root and the manifests and rotations that lead on from it (resolver.go). */
  datatype Chain = Chain(root: TrustRoot, manifests: seq<SignedManifest>, rotations: seq<Rotation>)

  ghost predicate VerifiedChain(x: Signing, c: Chain) {
    && c.manifests != [] && |c.rotations| == |c.manifests| - 1
    && ValidRoot(c.root) && SelfVerified(x, c.manifests[0]) && RootMatches(c.root, c.manifests[0])
    && forall i | 0 <= i < |c.rotations| :: RotationVerified(x, c.rotations[i], c.manifests[i], c.manifests[i + 1])
  }

  /** A chain verifies exactly when its root is the record of its first manifest and verified rotations lead on. */
  lemma VerifiedChainIff(x: Signing, c: Chain)
    ensures VerifiedChain(x, c) <==>
              && |c.manifests| == |c.rotations| + 1 && SelfVerified(x, c.manifests[0])
              && (var m := c.manifests[0].material;
                  c.root == TrustRoot("liminal.policy-authority.trust-root.v1.1", AuthorityOf(c.manifests[0]),
                                      GenerationOf(c.manifests[0]), m.manifest.manifestHash, c.manifests[0].signedHash,
                                      m.issuerId, m.issuerKeyId))
              && forall i | 0 <= i < |c.rotations| ::
                   RotationVerified(x, c.rotations[i], c.manifests[i], c.manifests[i + 1])
  {
    hide RotationVerified;
    if |c.manifests| > 0 { SelfVerifiedIff(x, c.manifests[0]); }
  }

  /** openVerifiedResolver's loop. */
  method VerifyChain(x: Signing, c: Chain) returns (ok: bool)
    ensures ok <==> VerifiedChain(x, c)
  {
    hide SelfVerified, RotationVerified;
    if |c.manifests| == 0 || |c.rotations| != |c.manifests| - 1 || !ValidRoot(c.root) { return false; }
    var verified := SelfVerify(x, c.manifests[0]);
    if !verified || !RootMatches(c.root, c.manifests[0]) { return false; }
    for i := 1 to |c.manifests|
      invariant forall j | 0 <= j < i - 1 :: RotationVerified(x, c.rotations[j], c.manifests[j], c.manifests[j + 1])
    {
      verified := VerifyRotation(x, c.rotations[i - 1], c.manifests[i - 1], c.manifests[i]);
      if !verified { return false; }
    }
    return true;
  }

  /** Every manifest of a verified chain verifies; the generation at index i is the root's plus i, with no wrap. */
  lemma {:induction false} GenerationAt(x: Signing, c: Chain, i: nat)
    requires VerifiedChain(x, c) && i < |c.manifests|
    ensures SelfVerified(x, c.manifests[i]) && AuthorityOf(c.manifests[i]) == c.root.authorityId
    ensures GenerationOf(c.manifests[i]) == c.root.rootGeneration + i
  {
    if i > 0 {
      GenerationAt(x, c, i - 1);
      assert RotationVerified(x, c.rotations[i - 1], c.manifests[i - 1], c.manifests[i]);
    }
  }

  predicate SignedBy(x: Signing, s: SignedManifest, key: string) {
    x.decodeKey(s.material.issuerPublicKey) == Some(key) && x.verified(key, ManifestMessage(s.material), s.signature)
  }

  /** Key `previous`, which signed the entry before, signed a rotation that names this entry and its key. */
  predicate Endorses(x: Signing, c: Chain, n: nat, previous: string, key: string)
    requires 0 < n < |c.manifests| && |c.rotations| == |c.manifests| - 1
  {
    var r, s := c.rotations[n - 1], c.manifests[n];
    && SignedBy(x, c.manifests[n - 1], previous) && x.verified(previous, RotationMessage(r.material), r.signature)
    && r.material.toIssuerKeyId == Sha256(key)
    && r.material.toSignedHash == Sha256(SignedHashMaterial(s.material, s.signature))
  }

  /**
    The chain of keys.  Each manifest is signed by the key it names; the first is
    the pinned key, and each later one was named by a rotation the previous key signed.
   */
  lemma EveryManifestEndorsed(x: Signing, c: Chain, n: nat) returns (key: string)
    requires VerifiedChain(x, c) && n < |c.manifests|
    ensures SignedBy(x, c.manifests[n], key) && Sha256(key) == c.manifests[n].material.issuerKeyId
    ensures n == 0 ==> Sha256(key) == c.root.issuerKeyId
    ensures n > 0 ==> exists previous :: Endorses(x, c, n, previous, key)
  {
    hide ValidManifest, WeakenedIn;
    GenerationAt(x, c, n);
    key := x.decodeKey(c.manifests[n].material.issuerPublicKey).value;
    if n > 0 {
      assert RotationVerified(x, c.rotations[n - 1], c.manifests[n - 1], c.manifests[n]);
      var previous := x.decodeKey(c.manifests[n - 1].material.issuerPublicKey).value;
      assert Endorses(x, c, n, previous, key);
    }
  }

  // ---- no silent weakening ----

  /** No rotation from index i up to j lists class `c` as weakened. */
  ghost predicate NeverListed(c: Chain, i: nat, j: nat, operationClass: string)
    requires j <= |c.rotations|
  {
    forall k | i <= k < j :: operationClass !in c.rotations[k].material.weakenedOperations
  }

  lemma UnlistedIsKept(x: Signing, r: Rotation, current: SignedManifest, next: SignedManifest, b: Binding)
    requires RotationVerified(x, r, current, next)
    requires b in BindingsOf(current) && b.operationClass !in r.material.weakenedOperations
    ensures Kept(b, BindingsOf(next))
  {
    WeakenedExact(BindingsOf(current), BindingsOf(next), b.operationClass);
  }

  lemma KeptReflexive(b: Binding)
    ensures KeptBy(b, b)
  {
  }

  lemma KeptTransitive(a: Binding, b: Binding, c: Binding)
    requires KeptBy(a, b) && KeptBy(b, c)
    ensures KeptBy(a, c)
  {
  }

  lemma {:induction false} UnlistedStaysKept(x: Signing, c: Chain, i: nat, j: nat, b: Binding) returns (n: Binding)
    requires VerifiedChain(x, c) && i <= j < |c.manifests|
    requires b in BindingsOf(c.manifests[i]) && NeverListed(c, i, j, b.operationClass)
    ensures n in BindingsOf(c.manifests[j]) && KeptBy(b, n)
    decreases j
  {
    hide SelfVerified, WeakenedIn, AtLeast, Links;
    if i == j {
      KeptReflexive(b);
      n := b;
    } else {
      var m := UnlistedStaysKept(x, c, i, j - 1, b);
      UnlistedIsKept(x, c.rotations[j - 1], c.manifests[j - 1], c.manifests[j], m);
      n :| n in BindingsOf(c.manifests[j]) && KeptBy(m, n);
      KeptTransitive(b, m, n);
    }
  }

  /**
    No silent weakening.  A class bound at index i that no rotation up to j lists
    is still bound at j, to the same contract, and evidence allowed there would
    have been allowed at i.
   */
  lemma NoSilentWeakening(x: Signing, c: Chain, i: nat, j: nat, b: Binding, n: Binding, e: Evidence)
    requires VerifiedChain(x, c) && i <= j < |c.manifests|
    requires b in BindingsOf(c.manifests[i]) && NeverListed(c, i, j, b.operationClass)
    requires n in BindingsOf(c.manifests[j]) && n.operationClass == b.operationClass
    requires Evaluate(n.policy, e).Ok? && Evaluate(n.policy, e).value.material.allowed
    ensures ContractOf(n) == ContractOf(b)
    ensures Evaluate(b.policy, e).Ok? && Evaluate(b.policy, e).value.material.allowed
  {
    var kept := UnlistedStaysKept(x, c, i, j, b);
    GenerationAt(x, c, j);
    GenerationAt(x, c, i);
    CanonicalClasses(BindingsOf(c.manifests[j]));
    SameClassSameBinding(BindingsOf(c.manifests[j]), kept, n);
    assert BindingOk(b);
    WeakerPolicyAllows(n.policy, b.policy, e);
  }

  lemma SameClassSameBinding(bs: seq<Binding>, a: Binding, b: Binding)
    requires ClassesDistinct(bs) && a in bs && b in bs && a.operationClass == b.operationClass
    ensures a == b
  {
    var i :| 0 <= i < |bs| && bs[i] == a;
    var j :| 0 <= j < |bs| && bs[j] == b;
  }

  lemma BoundOk(x: Signing, c: Chain, i: nat)
    requires VerifiedChain(x, c) && i < |c.manifests|
    ensures AllOk(BindingsOf(c.manifests[i]))
  {
    GenerationAt(x, c, i);
  }

  /**
    A class that disappears, changes contract or loses a requirement was listed by a
    rotation that allows weakening.
   */
  lemma LossWasAnnounced(x: Signing, c: Chain, i: nat, j: nat, b: Binding)
    requires VerifiedChain(x, c) && i <= j < |c.manifests|
    requires b in BindingsOf(c.manifests[i]) && Lost(b, BindingsOf(c.manifests[j]))
    ensures exists k :: i <= k < j && b.operationClass in c.rotations[k].material.weakenedOperations
                        && c.rotations[k].material.allowWeakening
  {
    BoundOk(x, c, i);
    BoundOk(x, c, j);
    LostIffNotKept(b, BindingsOf(c.manifests[j]));
    if NeverListed(c, i, j, b.operationClass) {
      var kept := UnlistedStaysKept(x, c, i, j, b);
      assert false;
    }
    var k :| i <= k < j && b.operationClass in c.rotations[k].material.weakenedOperations;
    assert RotationVerified(x, c.rotations[k], c.manifests[k], c.manifests[k + 1]);
  }

  /** A single rotation lists nothing it need not: whatever it names is really bound before and not kept after. */
  lemma ListedIsLost(x: Signing, r: Rotation, current: SignedManifest, next: SignedManifest, operationClass: string)
    requires RotationVerified(x, r, current, next)
    ensures operationClass in r.material.weakenedOperations <==>
            exists b :: b in BindingsOf(current) && b.operationClass == operationClass && Lost(b, BindingsOf(next))
  {
    hide Lost, Kept, WeakenedIn;
    forall b | b in BindingsOf(current) ensures Lost(b, BindingsOf(next)) <==> !Kept(b, BindingsOf(next)) {
      LostIffNotKept(b, BindingsOf(next));
    }
    WeakenedExact(BindingsOf(current), BindingsOf(next), operationClass);
  }
}
