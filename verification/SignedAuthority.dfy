/**
  Signed grants, rotations and authority chains (internal/adaptive/signed_authority.go).
  Everything is stated for an arbitrary signature scheme.
 */
module SignedAuthority {
  import opened Common
  import opened Authority
  import opened Journal
  import opened Signatures

  const SignedAuthorityProtocol := "liminal.adaptive.signed-authority.v0.1"
  const AuthorityRotationProtocol := "liminal.adaptive.authority-rotation.v0.1"
  const AuthorityChainProtocol := "liminal.adaptive.authority-chain.v0.1"

  datatype SignedMaterial = SignedMaterial(
    protocol: string, grant: Grant, issuerId: string, issuerKeyId: Digest<string>, issuerPublicKey: string,
    signatureAlgorithm: string, issuedAt: string)

  datatype SignedHashMaterial = SignedHashMaterial(material: SignedMaterial, signature: string)

  datatype SignedGrant = SignedGrant(material: SignedMaterial, signature: string,
                                     signedHash: Digest<SignedHashMaterial>)

  datatype TrustRoot = TrustRoot(
    protocol: string, authorityId: string, rootSignedHash: Digest<SignedHashMaterial>,
    rootAuthorityHash: Digest<GrantMaterial>,
    issuerId: string, issuerKeyId: Digest<string>)

  datatype RotationMaterial = RotationMaterial(
    protocol: string, authorityId: string, fromEpoch: string, toEpoch: string,
    fromAuthorityHash: Digest<GrantMaterial>, toAuthorityHash: Digest<GrantMaterial>,
    fromSignedHash: Digest<SignedHashMaterial>, toSignedHash: Digest<SignedHashMaterial>,
    sourceSequence: int, sourceHead: Digest<EntryMaterial>,
    fromIssuerId: string, fromIssuerKeyId: Digest<string>, toIssuerId: string, toIssuerKeyId: Digest<string>,
    issuedAt: string, signatureAlgorithm: string)

  datatype RotationHashMaterial = RotationHashMaterial(material: RotationMaterial, signature: string)

  datatype Rotation = Rotation(material: RotationMaterial, signature: string,
                               rotationHash: Digest<RotationHashMaterial>)

  datatype Chain = Chain(protocol: string, root: TrustRoot, grants: seq<SignedGrant>, rotations: seq<Rotation>)

  /** The two documents an issuer signs; their JSON texts never coincide. */
  datatype Message = GrantMessage(grant: SignedMaterial) | RotationMessage(rotation: RotationMaterial)

  /** The signature scheme, and how digests are written in a result. */
  datatype Codec = Codec(
    keys: Scheme<Message>,
    grantText: Digest<GrantMaterial> -> string, signedText: Digest<SignedHashMaterial> -> string,
    keyText: Digest<string> -> string)

  // ---- signed grants ----

  predicate SelfVerified(x: Codec, s: SignedGrant) {
    var m := s.material;
    && m.protocol == SignedAuthorityProtocol && ValidGrant(m.grant)
    && m.issuerId != "" && m.issuerKeyId != Empty && m.issuerPublicKey != "" && m.issuedAt != ""
    && m.signatureAlgorithm == Ed25519
    && x.keys.decodeKey(m.issuerPublicKey).Some? && Sha256(x.keys.decodeKey(m.issuerPublicKey).value) == m.issuerKeyId
    && x.keys.verified(x.keys.decodeKey(m.issuerPublicKey).value, GrantMessage(m), s.signature)
    && s.signedHash.IsHex() && s.signedHash == Sha256(SignedHashMaterial(m, s.signature))
  }

  /**
    A signed grant verifies exactly when it is the record SignAuthorityGrant writes for its
    grant, issuer, key and time, with a signature that verifies under that key.
   */
  lemma SelfVerifiedIff(x: Codec, s: SignedGrant)
    ensures SelfVerified(x, s) <==>
              var m := s.material;
              && ValidGrant(m.grant) && m.issuerId != "" && m.issuedAt != "" && m.issuerPublicKey != ""
              && x.keys.decodeKey(m.issuerPublicKey).Some?
              && var key := x.keys.decodeKey(m.issuerPublicKey).value;
                 && m == SignedMaterial(SignedAuthorityProtocol, m.grant, m.issuerId, Sha256(key), m.issuerPublicKey,
                                        Ed25519, m.issuedAt)
                 && x.keys.verified(key, GrantMessage(m), s.signature)
                 && s == SignedGrant(m, s.signature, Sha256(SignedHashMaterial(m, s.signature)))
  {
    hide ValidGrant;
  }

  /** SignAuthorityGrant; `at` is the time stamp. */
  function SignGrant(x: Codec, g: Grant, issuerId: string, privateKey: string, at: string): Option<SignedGrant> {
    if !ValidGrant(g) || issuerId == "" || x.keys.publicKey(privateKey).None? then None
    else
      var key := x.keys.publicKey(privateKey).value;
      var m := SignedMaterial(SignedAuthorityProtocol, g, issuerId, Sha256(key), x.keys.encodeKey(key), Ed25519, at);
      var signature := x.keys.sign(privateKey, GrantMessage(m));
      Some(SignedGrant(m, signature, Sha256(SignedHashMaterial(m, signature))))
  }

  predicate ValidRoot(r: TrustRoot) {
    && r.protocol == AuthorityChainProtocol && r.authorityId != "" && r.issuerId != ""
    && r.rootSignedHash.IsHex() && r.rootAuthorityHash.IsHex() && r.issuerKeyId.IsHex()
  }

  function RootOf(s: SignedGrant): TrustRoot {
    var m := s.material;
    TrustRoot(AuthorityChainProtocol, m.grant.material.authorityId, s.signedHash, m.grant.authorityHash, m.issuerId,
              m.issuerKeyId)
  }

  /** A grant is signed exactly when it is valid, by a named issuer with a usable key. */
  lemma SignsGrantIff(x: Codec, g: Grant, issuerId: string, privateKey: string, at: string)
    ensures SignGrant(x, g, issuerId, privateKey, at).Some? <==>
              ValidGrant(g) && issuerId != "" && x.keys.publicKey(privateKey).Some?
    ensures SignGrant(x, g, issuerId, privateKey, at).Some? ==>
              var s := SignGrant(x, g, issuerId, privateKey, at).value;
              s.material.grant == g && s.material.issuerId == issuerId && s.material.issuedAt == at
              && s.material.issuerKeyId == Sha256(x.keys.publicKey(privateKey).value)
  {
    hide ValidGrant;
  }

  // ---- rotations ----

  /** An empty journal has no head; any other has a digest. */
  predicate ValidAnchor(sequence: int, head: Digest<EntryMaterial>) {
    if sequence == 0 then head == Empty else head.IsHex()
  }

  /** Every field that must repeat the two signed grants. */
  predicate Links(m: RotationMaterial, current: SignedGrant, next: SignedGrant) {
    var c, n := current.material, next.material;
    && m.authorityId == c.grant.material.authorityId && m.authorityId == n.grant.material.authorityId
    && m.fromEpoch == c.grant.material.epoch && m.toEpoch == n.grant.material.epoch
    && m.fromAuthorityHash == c.grant.authorityHash && m.toAuthorityHash == n.grant.authorityHash
    && m.fromSignedHash == current.signedHash && m.toSignedHash == next.signedHash
    && m.fromIssuerId == c.issuerId && m.fromIssuerKeyId == c.issuerKeyId
    && m.toIssuerId == n.issuerId && m.toIssuerKeyId == n.issuerKeyId
  }

  predicate RotationVerified(x: Codec, r: Rotation, current: SignedGrant, next: SignedGrant) {
    var m := r.material;
    && SelfVerified(x, current) && SelfVerified(x, next)
    && m.protocol == AuthorityRotationProtocol && m.signatureAlgorithm == Ed25519
    && Links(m, current, next) && m.fromEpoch != m.toEpoch
    && ValidAnchor(m.sourceSequence, m.sourceHead)
    && x.keys.verified(x.keys.decodeKey(current.material.issuerPublicKey).value, RotationMessage(m), r.signature)
    && r.rotationHash.IsHex() && r.rotationHash == Sha256(RotationHashMaterial(m, r.signature))
  }

  /** When SignAuthorityRotation agrees to sign. */
  predicate MayRotate(x: Codec, current: SignedGrant, next: SignedGrant, sequence: int, head: Digest<EntryMaterial>,
                      privateKey: string) {
    && SelfVerified(x, current) && SelfVerified(x, next)
    && current.material.grant.material.authorityId == next.material.grant.material.authorityId
    && current.material.grant.material.epoch != next.material.grant.material.epoch
    && current.signedHash != next.signedHash
    && ValidAnchor(sequence, head)
    && x.keys.publicKey(privateKey).Some? && Sha256(x.keys.publicKey(privateKey).value) == current.material.issuerKeyId
  }

  /** What a rotation from one signed grant to the next says. */
  function Step(current: SignedGrant, next: SignedGrant, sequence: int, head: Digest<EntryMaterial>,
                at: string): RotationMaterial {
    var c, n := current.material, next.material;
    RotationMaterial(
      AuthorityRotationProtocol, c.grant.material.authorityId, c.grant.material.epoch, n.grant.material.epoch,
      c.grant.authorityHash, n.grant.authorityHash, current.signedHash, next.signedHash, sequence, head,
      c.issuerId, c.issuerKeyId, n.issuerId, n.issuerKeyId, at, Ed25519)
  }

  /** SignAuthorityRotation. */
  function SignRotation(x: Codec, current: SignedGrant, next: SignedGrant, sequence: int, head: Digest<EntryMaterial>,
                        privateKey: string, at: string): Option<Rotation> {
    if !MayRotate(x, current, next, sequence, head, privateKey) then None
    else
      var m := Step(current, next, sequence, head, at);
      var signature := x.keys.sign(privateKey, RotationMessage(m));
      Some(Rotation(m, signature, Sha256(RotationHashMaterial(m, signature))))
  }

  /** What the current issuer signs verifies, because the key it checked is the key in the current grant. */
  lemma SignedRotationVerifies(x: Codec, current: SignedGrant, next: SignedGrant, sequence: int,
                               head: Digest<EntryMaterial>,
                               privateKey: string, at: string)
    requires x.keys.Lawful() && MayRotate(x, current, next, sequence, head, privateKey)
    ensures SignRotation(x, current, next, sequence, head, privateKey, at).Some?
    ensures RotationVerified(x, SignRotation(x, current, next, sequence, head, privateKey, at).value, current, next)
  {
    var key := x.keys.publicKey(privateKey).value;
    assert Sha256(key) == Sha256(x.keys.decodeKey(current.material.issuerPublicKey).value);
    var r := SignRotation(x, current, next, sequence, head, privateKey, at).value;
    assert r.signature == x.keys.sign(privateKey, RotationMessage(r.material));
    assert x.keys.verified(key, RotationMessage(r.material), r.signature);
  }

  /** A rotation is signed exactly between two epochs of one authority, at a legal anchor, with the current key. */
  lemma SignsRotationIff(x: Codec, current: SignedGrant, next: SignedGrant, sequence: int, head: Digest<EntryMaterial>,
                         privateKey: string, at: string)
    ensures SignRotation(x, current, next, sequence, head, privateKey, at).Some? <==>
              && SelfVerified(x, current) && SelfVerified(x, next)
              && current.material.grant.material.authorityId == next.material.grant.material.authorityId
              && current.material.grant.material.epoch != next.material.grant.material.epoch
              && (if sequence == 0 then head == Empty else head.IsHex())
              && x.keys.publicKey(privateKey).Some?
              && Sha256(x.keys.publicKey(privateKey).value) == current.material.issuerKeyId
    ensures SignRotation(x, current, next, sequence, head, privateKey, at).Some? ==>
              var m := SignRotation(x, current, next, sequence, head, privateKey, at).value.material;
              m.sourceSequence == sequence && m.sourceHead == head && m.issuedAt == at
  {
    hide ValidGrant;
  }

  /**
    A rotation verifies exactly when it is the record the current issuer writes for this
    step, between two epochs of one authority, at a legal anchor, signed with the current key.
   */
  lemma RotationVerifiedIff(x: Codec, r: Rotation, current: SignedGrant, next: SignedGrant)
    ensures RotationVerified(x, r, current, next) <==>
              var m := r.material;
              && SelfVerified(x, current) && SelfVerified(x, next)
              && current.material.grant.material.authorityId == next.material.grant.material.authorityId
              && current.material.grant.material.epoch != next.material.grant.material.epoch
              && (if m.sourceSequence == 0 then m.sourceHead == Empty else m.sourceHead.IsHex())
              && m == Step(current, next, m.sourceSequence, m.sourceHead, m.issuedAt)
              && SignedByKeyOf(x, current, RotationMessage(m), r.signature)
              && r.rotationHash == Sha256(RotationHashMaterial(m, r.signature))
  {
    hide ValidGrant;
  }

  predicate SignedByKeyOf(x: Codec, s: SignedGrant, m: Message, signature: string) {
    && x.keys.decodeKey(s.material.issuerPublicKey).Some?
    && x.keys.verified(x.keys.decodeKey(s.material.issuerPublicKey).value, m, signature)
  }

  /** The holder of the current key can sign a step at an anchor exactly when some rotation for it verifies. */
  lemma SignableIffVerifiable(x: Codec, current: SignedGrant, next: SignedGrant, sequence: int,
                              head: Digest<EntryMaterial>, privateKey: string)
    requires x.keys.Lawful() && x.keys.publicKey(privateKey).Some?
    requires Sha256(x.keys.publicKey(privateKey).value) == current.material.issuerKeyId
    ensures MayRotate(x, current, next, sequence, head, privateKey) <==>
            exists r :: && RotationVerified(x, r, current, next)
                        && r.material.sourceSequence == sequence && r.material.sourceHead == head
  {
    if MayRotate(x, current, next, sequence, head, privateKey) {
      SignedRotationVerifies(x, current, next, sequence, head, privateKey, "now");
      hide SelfVerified;
    }
  }

  // ---- chains ----

  predicate RootMatches(c: Chain)
    requires c.grants != []
  {
    RootOf(c.grants[0]).(protocol := c.root.protocol) == c.root
  }

  /** A chain of authority: the first grant is the pinned one, and each rotation leads from a grant to the next. */
  predicate VerifiedChain(x: Codec, c: Chain) {
    && c.protocol == AuthorityChainProtocol && ValidRoot(c.root)
    && c.grants != [] && |c.rotations| == |c.grants| - 1
    && RootMatches(c) && SelfVerified(x, c.grants[0])
    && (forall i | 0 <= i < |c.rotations| :: RotationVerified(x, c.rotations[i], c.grants[i], c.grants[i + 1]))
  }

  /** A chain verifies exactly when its root is the record of its first grant and verified rotations lead on. */
  lemma VerifiedChainIff(x: Codec, c: Chain)
    ensures VerifiedChain(x, c) <==>
              && c.protocol == "liminal.adaptive.authority-chain.v0.1"
              && |c.grants| == |c.rotations| + 1 && SelfVerified(x, c.grants[0]) && c.root == RootOf(c.grants[0])
              && forall i | 0 <= i < |c.rotations| ::
                   RotationVerified(x, c.rotations[i], c.grants[i], c.grants[i + 1])
  {
    hide RotationVerified;
    if |c.grants| > 0 { SelfVerifiedIff(x, c.grants[0]); }
  }

  function Current(c: Chain): SignedGrant
    requires c.grants != []
  {
    c.grants[|c.grants| - 1]
  }

  /** Every grant of a verified chain verifies by itself and keeps the root's authority id. */
  lemma {:induction false} GrantsVerified(x: Codec, c: Chain, n: nat)
    requires VerifiedChain(x, c) && n < |c.grants|
    ensures SelfVerified(x, c.grants[n]) && c.grants[n].material.grant.material.authorityId == c.root.authorityId
  {
    if n > 0 {
      GrantsVerified(x, c, n - 1);
      assert RotationVerified(x, c.rotations[n - 1], c.grants[n - 1], c.grants[n]);
    }
  }

  /** The key a signed grant carries, and that it signed the grant. */
  predicate SignedBy(x: Codec, s: SignedGrant, key: string) {
    x.keys.decodeKey(s.material.issuerPublicKey) == Some(key)
      && x.keys.verified(key, GrantMessage(s.material), s.signature)
  }

  /** Key `previous`, which signed the entry before, signed a rotation that names this entry and its key. */
  predicate Endorses(x: Codec, c: Chain, n: nat, previous: string, key: string)
    requires 0 < n < |c.grants| && |c.rotations| == |c.grants| - 1
  {
    var r, s := c.rotations[n - 1], c.grants[n];
    && SignedBy(x, c.grants[n - 1], previous) && x.keys.verified(previous, RotationMessage(r.material), r.signature)
    && r.material.toIssuerKeyId == Sha256(key)
    && r.material.toSignedHash == Sha256(SignedHashMaterial(s.material, s.signature))
  }

  /**
    The chain of keys.  Each grant is signed by the key it names; the first is
    the pinned key, and each later one was named by a rotation the previous key signed.
   */
  lemma EveryGrantEndorsed(x: Codec, c: Chain, n: nat) returns (key: string)
    requires VerifiedChain(x, c) && n < |c.grants|
    ensures SignedBy(x, c.grants[n], key) && Sha256(key) == c.grants[n].material.issuerKeyId
    ensures n == 0 ==> Sha256(key) == c.root.issuerKeyId
    ensures n > 0 ==> exists previous :: Endorses(x, c, n, previous, key)
  {
    GrantsVerified(x, c, n);
    key := x.keys.decodeKey(c.grants[n].material.issuerPublicKey).value;
    if n > 0 {
      assert RotationVerified(x, c.rotations[n - 1], c.grants[n - 1], c.grants[n]);
      var previous := x.keys.decodeKey(c.grants[n - 1].material.issuerPublicKey).value;
      assert Endorses(x, c, n, previous, key);
    }
  }

  /** The verification loop accepts exactly the verified chains. */
  method Verify(x: Codec, c: Chain) returns (ok: bool)
    ensures ok <==> VerifiedChain(x, c)
  {
    if c.protocol != AuthorityChainProtocol || !ValidRoot(c.root) { return false; }
    if |c.grants| == 0 || |c.rotations| != |c.grants| - 1 { return false; }
    if !SelfVerified(x, c.grants[0]) || !RootMatches(c) { return false; }
    for i := 0 to |c.grants|
      invariant forall j | 0 < j < i :: RotationVerified(x, c.rotations[j - 1], c.grants[j - 1], c.grants[j])
    {
      ghost var verified := VerifiedChain(x, c);
      if verified { GrantsVerified(x, c, i); }
      if !SelfVerified(x, c.grants[i]) || c.grants[i].material.grant.material.authorityId != c.root.authorityId {
        return false;
      }
      if i > 0 && !RotationVerified(x, c.rotations[i - 1], c.grants[i - 1], c.grants[i]) { return false; }
    }
    forall i | 0 <= i < |c.rotations| ensures RotationVerified(x, c.rotations[i], c.grants[i], c.grants[i + 1]) {
      assert RotationVerified(x, c.rotations[i + 1 - 1], c.grants[i + 1 - 1], c.grants[i + 1]);
    }
    return true;
  }

  /** One grant later. */
  function Extended(c: Chain, next: SignedGrant, r: Rotation): Chain {
    c.(grants := c.grants + [next], rotations := c.rotations + [r])
  }

  lemma ExtendedVerified(x: Codec, c: Chain, next: SignedGrant, r: Rotation)
    requires VerifiedChain(x, c)
    ensures VerifiedChain(x, Extended(c, next, r)) <==> RotationVerified(x, r, Current(c), next)
  {
    var e := Extended(c, next, r);
    assert e.grants[|c.grants| - 1] == Current(c) && e.grants[|c.grants|] == next && e.rotations[|c.rotations|] == r;
    if RotationVerified(x, r, Current(c), next) {
      forall i | 0 <= i < |e.rotations| ensures RotationVerified(x, e.rotations[i], e.grants[i], e.grants[i + 1]) {
        if i < |c.rotations| { assert RotationVerified(x, c.rotations[i], c.grants[i], c.grants[i + 1]); }
      }
    }
  }

  /** A grant signed by anybody is the root of a verified chain of one. */
  lemma RootChainVerifies(x: Codec, g: Grant, issuerId: string, privateKey: string, at: string)
    requires x.keys.Lawful() && at != "" && SignGrant(x, g, issuerId, privateKey, at).Some?
    ensures var s := SignGrant(x, g, issuerId, privateKey, at).value;
            SelfVerified(x, s) && VerifiedChain(x, Chain(AuthorityChainProtocol, RootOf(s), [s], []))
  {
    var s := SignGrant(x, g, issuerId, privateKey, at).value;
    assert x.keys.decodeKey(s.material.issuerPublicKey) == x.keys.publicKey(privateKey);
    assert s.signature == x.keys.sign(privateKey, GrantMessage(s.material));
    assert x.keys.verified(x.keys.publicKey(privateKey).value, GrantMessage(s.material), s.signature);
  }

  /** A signed grant is fixed by its signed hash. */
  lemma SignedHashFixesGrant(x: Codec, a: SignedGrant, b: SignedGrant)
    requires SelfVerified(x, a) && SelfVerified(x, b) && a.signedHash == b.signedHash
    ensures a == b
  {
  }

  /** The pinned root and the rotation hashes commit to the whole chain. */
  lemma {:induction false} RotationsFixGrants(x: Codec, a: Chain, b: Chain, n: nat)
    requires VerifiedChain(x, a) && VerifiedChain(x, b) && a.root == b.root && |a.rotations| == |b.rotations|
    requires forall i | 0 <= i < |a.rotations| :: a.rotations[i].rotationHash == b.rotations[i].rotationHash
    requires n < |a.grants|
    ensures a.grants[n] == b.grants[n] && (n > 0 ==> a.rotations[n - 1] == b.rotations[n - 1])
  {
    GrantsVerified(x, a, n);
    GrantsVerified(x, b, n);
    if n > 0 {
      assert RotationVerified(x, a.rotations[n - 1], a.grants[n - 1], a.grants[n]);
      assert RotationVerified(x, b.rotations[n - 1], b.grants[n - 1], b.grants[n]);
    }
    SignedHashFixesGrant(x, a.grants[n], b.grants[n]);
  }

  lemma RootAndRotationsFixChain(x: Codec, a: Chain, b: Chain)
    requires VerifiedChain(x, a) && VerifiedChain(x, b) && a.root == b.root && |a.rotations| == |b.rotations|
    requires forall i | 0 <= i < |a.rotations| :: a.rotations[i].rotationHash == b.rotations[i].rotationHash
    ensures a == b
  {
    forall n | 0 <= n < |a.grants| ensures a.grants[n] == b.grants[n] {
      RotationsFixGrants(x, a, b, n);
    }
    forall n | 0 <= n < |a.rotations| ensures a.rotations[n] == b.rotations[n] {
      RotationsFixGrants(x, a, b, n + 1);
    }
    assert a.grants == b.grants && a.rotations == b.rotations;
  }

  // ---- measurements bound to a signed grant ----

  /** The measured result names exactly this signed grant. */
  predicate Authorised(x: Codec, s: SignedGrant, e: Evidence) {
    && EvidenceAuthorised(x.grantText, s.material.grant, e)
    && ValueString(e.result, "signed_authority_protocol") == s.material.protocol
    && ValueString(e.result, "authority_issuer_id") == s.material.issuerId
    && ValueString(e.result, "authority_issuer_key_id") == x.keyText(s.material.issuerKeyId)
    && ValueString(e.result, "signed_authority_hash") == x.signedText(s.signedHash)
  }

  method ValidateSignedEvidence(x: Codec, s: SignedGrant, e: Evidence) returns (ok: bool)
    ensures ok <==> SelfVerified(x, s) && Authorised(x, s, e)
  {
    if !SelfVerified(x, s) { return false; }
    var bound := ValidateEvidence(x.grantText, s.material.grant, e);
    if !bound { return false; }
    return && ValueString(e.result, "signed_authority_protocol") == s.material.protocol
           && ValueString(e.result, "authority_issuer_id") == s.material.issuerId
           && ValueString(e.result, "authority_issuer_key_id") == x.keyText(s.material.issuerKeyId)
           && ValueString(e.result, "signed_authority_hash") == x.signedText(s.signedHash);
  }

  /** BindSignedAuthorityResult. */
  function BindSignedResult(x: Codec, s: SignedGrant, result: Object): Object {
    BindResult(x.grantText, s.material.grant, result)
      ["signed_authority_protocol" := Str(s.material.protocol)]["authority_issuer_id" := Str(s.material.issuerId)]
      ["authority_issuer_key_id" := Str(x.keyText(s.material.issuerKeyId))]
      ["signed_authority_hash" := Str(x.signedText(s.signedHash))]
  }

  /** Binding a result authorises it exactly when it reports an allowed action, and leaves every other field alone. */
  lemma BoundResultAuthorised(x: Codec, s: SignedGrant, e: Evidence, result: Object)
    requires e.result == BindSignedResult(x, s, result)
    ensures Authorised(x, s, e) <==>
              && e.experience.selectedAction in s.material.grant.material.allowedActions
              && ValueString(result, "selected_action") == e.experience.selectedAction
    ensures forall k | k in result && k !in {"authority_protocol", "authority_id", "authority_epoch", "authority_hash",
                "signed_authority_protocol", "authority_issuer_id", "authority_issuer_key_id",
                "signed_authority_hash"} ::
              k in e.result && e.result[k] == result[k]
  {
    assert "selected_action" in result <==> "selected_action" in e.result;
  }

  /** No digest is written as the empty text. */
  ghost predicate TextNonEmpty(x: Codec) {
    && (forall d :: x.grantText(d) != "") && (forall d :: x.signedText(d) != "") && (forall d :: x.keyText(d) != "")
  }

  /** A measurement is authorised exactly when it reports an allowed action and binding its result changes nothing. */
  lemma AuthorisedIffBound(x: Codec, s: SignedGrant, e: Evidence)
    requires TextNonEmpty(x) && SelfVerified(x, s) && e.experience.selectedAction != ""
    ensures Authorised(x, s, e) <==>
              && e.experience.selectedAction in s.material.grant.material.allowedActions
              && "selected_action" in e.result && e.result["selected_action"] == Str(e.experience.selectedAction)
              && BindSignedResult(x, s, e.result) == e.result
  {
    var bound := BindSignedResult(x, s, e.result);
    if Authorised(x, s, e) {
      assert bound.Keys == e.result.Keys;
    } else if bound == e.result {
      BoundResultAuthorised(x, s, e, e.result);
    }
  }

  /** Distinct digests have distinct texts. */
  ghost predicate TextInjective(x: Codec) {
    forall a, b | x.signedText(a) == x.signedText(b) :: a == b
  }

  /** No measurement is authorised under two different signed grants. */
  lemma AuthorisedByOne(x: Codec, s: SignedGrant, t: SignedGrant, e: Evidence)
    requires TextInjective(x) && SelfVerified(x, s) && SelfVerified(x, t) && Authorised(x, s, e) && Authorised(x, t, e)
    ensures s == t
  {
    assert x.signedText(s.signedHash) == x.signedText(t.signedHash);
    SignedHashFixesGrant(x, s, t);
  }
}
