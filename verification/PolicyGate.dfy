/**
  Authorizations (internal/policyauthority/resolver.go) and the gate that runs the
  registered handler (internal/adaptive/policy_authority_runtime.go,
  policy_authority_gate.go, trust_gate.go).
 */
module PolicyGate {
  import opened Common
  import Ordering
  import opened TrustPolicy
  import opened PolicyManifest
  import opened PolicyRotation
  import opened PolicyHead

  const AuthorizationProtocol := "liminal.policy-authority.authorization.v1.1"

  datatype AuthorizationMaterial = AuthorizationMaterial(
    protocol: string, authorityId: string, generation: Uint64, operationClass: string, actionKind: string,
    target: string, sideEffect: bool, inputHash: Digest<Object>, descriptorHash: Digest<DescriptorMaterial>,
    policyHash: Digest<PolicyMaterial>,
    manifestHash: Digest<ManifestMaterial>, signedHash: Digest<SignedHashMaterial>, issuerKeyId: Digest<string>,
    rotationHash: Digest<RotationHashMaterial>, chainHeadHash: Digest<HeadMaterial>)

  datatype Authorization = Authorization(material: AuthorizationMaterial,
                                         authorizationHash: Digest<AuthorizationMaterial>)

  predicate ValidAuthorization(a: Authorization) {
    var m := a.material;
    && m.protocol == AuthorizationProtocol && m.authorityId != "" && m.generation != 0
    && m.operationClass != "" && m.actionKind != "" && m.target != ""
    && m.inputHash.IsHex() && m.descriptorHash.IsHex() && m.policyHash.IsHex() && m.manifestHash.IsHex()
    && m.signedHash.IsHex() && m.issuerKeyId.IsHex() && m.chainHeadHash.IsHex() && a.authorizationHash.IsHex()
    && (m.rotationHash != Empty ==> m.rotationHash.IsHex())
    && a.authorizationHash == Sha256(m)
  }

  // ---- the resolver ----

  datatype Resolver = Resolver(chain: Chain, head: ChainHead)

  ghost predicate ValidResolver(x: Signing, r: Resolver) {
    VerifiedChain(x, r.chain) && r.head == HeadOf(r.chain)
  }

  function Current(r: Resolver): SignedManifest
    requires r.chain.manifests != []
  {
    r.chain.manifests[|r.chain.manifests| - 1]
  }

  /** The authorization a binding of the current manifest gives. */
  function AuthorizationFor(r: Resolver, b: Binding, inputHash: Digest<Object>,
                            descriptorHash: Digest<DescriptorMaterial>): Authorization
    requires r.chain.manifests != [] && |r.chain.rotations| == |r.chain.manifests| - 1
  {
    var s, n := Current(r), |r.chain.rotations|;
    var m := AuthorizationMaterial(
      AuthorizationProtocol, AuthorityOf(s), GenerationOf(s), b.operationClass, b.actionKind, b.target, b.sideEffect,
      inputHash, descriptorHash, b.policy.policyHash, s.material.manifest.manifestHash, s.signedHash,
      s.material.issuerKeyId, if n > 0 then r.chain.rotations[n - 1].rotationHash else Empty, r.head.headHash);
    Authorization(m, Sha256(m))
  }

  /** Everything ResolveOperation fixes about an authorization except the hashes of inputs and descriptor. */
  ghost predicate Authorises(r: Resolver, b: Binding, a: Authorization)
    requires r.chain.manifests != [] && |r.chain.rotations| == |r.chain.manifests| - 1
  {
    && b in BindingsOf(Current(r)) && a.material.inputHash.IsHex() && a.material.descriptorHash.IsHex()
    && a == AuthorizationFor(r, b, a.material.inputHash, a.material.descriptorHash)
  }

  lemma AuthorizationValid(x: Signing, r: Resolver, b: Binding, inputHash: Digest<Object>,
                           descriptorHash: Digest<DescriptorMaterial>)
    requires ValidResolver(x, r) && b in BindingsOf(Current(r)) && inputHash.IsHex() && descriptorHash.IsHex()
    ensures ValidAuthorization(AuthorizationFor(r, b, inputHash, descriptorHash)) && BindingOk(b)
    ensures r.head.headHash == Sha256(r.head.material) && GenerationOf(Current(r)) == r.head.material.generation
    ensures AuthorizationFor(r, b, inputHash, descriptorHash).material.rotationHash == r.head.material.rotationHash
  {
    HeadFields(x, r);
    CurrentFields(x, Current(r), b);
    hide SelfVerified, BindingOk, ValidResolver, HeadAt, ValidHead;
  }

  lemma HeadFields(x: Signing, r: Resolver)
    requires ValidResolver(x, r)
    ensures SelfVerified(x, Current(r)) && |r.chain.rotations| == |r.chain.manifests| - 1
    ensures r.head.headHash == Sha256(r.head.material) && GenerationOf(Current(r)) == r.head.material.generation
    ensures var n := |r.chain.rotations|;
            r.head.material.rotationHash == if n > 0 then r.chain.rotations[n - 1].rotationHash else Empty
    ensures r.head.material.rotationHash != Empty ==> r.head.material.rotationHash.IsHex()
  {
    var n := |r.chain.manifests|;
    GenerationAt(x, r.chain, n - 1);
    HeadsValid(x, r.chain, n - 1);
    hide SelfVerified, RotationVerified;
  }

  lemma CurrentFields(x: Signing, s: SignedManifest, b: Binding)
    requires SelfVerified(x, s) && b in BindingsOf(s)
    ensures BindingOk(b) && b.operationClass != "" && b.actionKind != "" && b.target != ""
            && b.policy.policyHash.IsHex()
    ensures s.material.manifest.manifestHash.IsHex() && s.signedHash.IsHex() && s.material.issuerKeyId.IsHex()
    ensures AuthorityOf(s) != "" && GenerationOf(s) != 0
  {
    hide Ordering.Ascending, ContractsDistinct;
  }

  /**
    VerifyAuthorization accepts exactly what some binding of the current manifest
    authorises.  It does not recompute the operation descriptor, so its input and
    descriptor hashes may be any digests.
   */
  method VerifyAuthorization(ghost x: Signing, r: Resolver, a: Authorization) returns (ok: bool)
    requires ValidResolver(x, r)
    ensures ok <==> exists b :: Authorises(r, b, a)
  {
    hide VerifiedChain, AuthorizationFor, BindingOk;
    ChainShape(x, r.chain);
    forall b | Authorises(r, b, a) ensures AuthorisedFields(r, b, a) { AuthorisedIsValid(x, r, b, a); }
    var m, s := a.material, Current(r);
    if !ValidAuthorization(a) { return false; }
    if m.chainHeadHash != r.head.headHash || m.generation != r.head.material.generation { return false; }
    if m.authorityId != AuthorityOf(s) || m.manifestHash != s.material.manifest.manifestHash
       || m.signedHash != s.signedHash || m.issuerKeyId != s.material.issuerKeyId { return false; }
    var bs := BindingsOf(s);
    for i := 0 to |bs|
      invariant forall j | 0 <= j < i :: !Answers(bs[j], m)
    {
      if Answers(bs[i], m) {
        forall b | Authorises(r, b, a) ensures b == bs[i] { OneAnswers(x, r, b, bs[i], m); }
        if bs[i].policy.policyHash != m.policyHash || m.rotationHash != r.head.material.rotationHash { return false; }
        FieldsAuthorise(x, r, bs[i], a);
        return true;
      }
    }
    return false;
  }

  /** The scan's test: class and contract. */
  predicate Answers(b: Binding, m: AuthorizationMaterial) {
    b.operationClass == m.operationClass && b.actionKind == m.actionKind && b.target == m.target
      && b.sideEffect == m.sideEffect
  }

  /** The comparisons VerifyAuthorization makes. */
  ghost predicate AuthorisedFields(r: Resolver, b: Binding, a: Authorization)
    requires r.chain.manifests != []
  {
    var m, s := a.material, Current(r);
    && ValidAuthorization(a) && m.chainHeadHash == r.head.headHash && m.generation == r.head.material.generation
    && m.authorityId == AuthorityOf(s) && m.manifestHash == s.material.manifest.manifestHash
    && m.signedHash == s.signedHash && m.issuerKeyId == s.material.issuerKeyId
    && b in BindingsOf(s) && Answers(b, m) && b.policy.policyHash == m.policyHash
    && m.rotationHash == r.head.material.rotationHash
  }

  lemma AuthorisedIsValid(x: Signing, r: Resolver, b: Binding, a: Authorization)
    requires ValidResolver(x, r) && Authorises(r, b, a)
    ensures AuthorisedFields(r, b, a)
  {
    AuthorizationValid(x, r, b, a.material.inputHash, a.material.descriptorHash);
  }

  lemma FieldsAuthorise(x: Signing, r: Resolver, b: Binding, a: Authorization)
    requires ValidResolver(x, r) && AuthorisedFields(r, b, a)
    ensures Authorises(r, b, a)
  {
    AuthorizationValid(x, r, b, a.material.inputHash, a.material.descriptorHash);
    assert a.material == AuthorizationFor(r, b, a.material.inputHash, a.material.descriptorHash).material;
  }

  lemma OneAnswers(x: Signing, r: Resolver, b: Binding, c: Binding, m: AuthorizationMaterial)
    requires ValidResolver(x, r) && b in BindingsOf(Current(r)) && c in BindingsOf(Current(r))
    requires Answers(b, m) && Answers(c, m)
    ensures b == c
  {
    GenerationAt(x, r.chain, |r.chain.manifests| - 1);
    ContractsPickOne(BindingsOf(Current(r)), b, c);
  }

  /** A verified authorization names one binding, hence one policy. */
  lemma AuthorizationNamesOneBinding(x: Signing, r: Resolver, a: Authorization, b: Binding, c: Binding)
    requires ValidResolver(x, r) && Authorises(r, b, a) && Authorises(r, c, a)
    ensures b == c
  {
    OneAnswers(x, r, b, c, a.material);
  }

  /**
    So a verified authorization need not carry the descriptor of its own operation:
    with the inputs of one operation it may carry the descriptor of another.
   */
  lemma DescriptorIsNotChecked(x: Signing, r: Resolver, b: Binding, inputs: Object, others: Object)
    requires ValidResolver(x, r) && b in BindingsOf(Current(r)) && inputs != others
    ensures NewDescriptor(b, inputs).Some? && NewDescriptor(b, others).Some?
    ensures var a := AuthorizationFor(r, b, Sha256(inputs), NewDescriptor(b, others).value.descriptorHash);
            Authorises(r, b, a) && a.material.descriptorHash != NewDescriptor(b, inputs).value.descriptorHash
  {
    AuthorizationValid(x, r, b, Sha256(inputs), ForeignHex(""));
    var d := NewDescriptor(b, others).value;
    DescriptorPinsOperation(b, others, ContractOf(b), inputs);
    AuthorizationValid(x, r, b, Sha256(inputs), d.descriptorHash);
  }

  /** The authorization ResolveOperation builds for a binding and these inputs. */
  function Resolved(r: Resolver, b: Binding, inputs: Object): Authorization
    requires r.chain.manifests != [] && |r.chain.rotations| == |r.chain.manifests| - 1 && BindingOk(b)
  {
    AuthorizationFor(r, b, Sha256(inputs), NewDescriptor(b, inputs).value.descriptorHash)
  }

  /**
    A verified authorization is the one built for these inputs exactly when its
    two free hashes are those of the inputs and of the operation's own descriptor.
    Either one determines the inputs, so an authorization is built for at most one set of them.
   */
  lemma ResolvedIff(x: Signing, r: Resolver, b: Binding, a: Authorization, inputs: Object)
    requires ValidResolver(x, r) && Authorises(r, b, a)
    ensures BindingOk(b) && NewDescriptor(b, inputs).Some?
    ensures a == Resolved(r, b, inputs) <==>
              && a.material.inputHash == Sha256(inputs)
              && a.material.descriptorHash == NewDescriptor(b, inputs).value.descriptorHash
    ensures a == Resolved(r, b, inputs) ==> forall others | a == Resolved(r, b, others) :: others == inputs
  {
    AuthorizationValid(x, r, b, a.material.inputHash, a.material.descriptorHash);
    forall others | a == Resolved(r, b, inputs) && a == Resolved(r, b, others) ensures others == inputs {
      assert Sha256(others) == Sha256(inputs);
    }
  }

  /** The binding a contract answers to, when there is one. */
  ghost predicate Bound(r: Resolver, c: Contract, b: Binding)
    requires r.chain.manifests != []
  {
    b in BindingsOf(Current(r)) && ContractOf(b) == c
  }

  datatype Resolution = Resolution(policy: Policy, descriptor: Descriptor, authorization: Authorization)

  /**
    ResolveOperation on the resolver: the authorization it builds always passes
    its own verification, so it fails only when no binding has the contract.
   */
  method ResolveCurrent(ghost x: Signing, r: Resolver, c: Contract, inputs: Object) returns (res: Option<Resolution>)
    requires ValidResolver(x, r)
    ensures res.Some? <==> exists b :: b in BindingsOf(Current(r)) && b.actionKind == c.actionKind
                                       && b.target == c.target && b.sideEffect == c.sideEffect
    ensures res.Some? <==> exists b :: Bound(r, c, b)
    ensures res.Some? ==> forall b | Bound(r, c, b) ::
                            && res.value.policy == b.policy && BindingOk(b)
                            && NewDescriptor(b, inputs) == Some(res.value.descriptor)
                            && DescriptorVerified(res.value.descriptor, c, inputs)
                            && Authorises(r, b, res.value.authorization)
                            && res.value.authorization == Resolved(r, b, inputs)
    ensures res.Some? ==> && res.value.authorization.material.inputHash == Sha256(inputs)
                          && res.value.authorization.material.descriptorHash == res.value.descriptor.descriptorHash
  {
    hide VerifiedChain, ValidManifest, ValidAuthorization, DescriptorVerified;
    ChainShape(x, r.chain);
    ghost var n := |r.chain.manifests| - 1;
    GenerationAt(x, r.chain, n);
    var s := Current(r);
    assert ValidManifest(s.material.manifest) by { assert SelfVerified(x, s); }
    var found := ResolveOperation(s.material.manifest, c, inputs);
    if found.None? {
      assert forall b | Bound(r, c, b) :: b in s.material.manifest.material.bindings && ContractOf(b) == c;
      return None;
    }
    var (b, d) := found.value;
    assert Bound(r, c, b);
    AuthorizationValid(x, r, b, d.material.inputHash, d.descriptorHash);
    var a := AuthorizationFor(r, b, d.material.inputHash, d.descriptorHash);
    assert Authorises(r, b, a);
    var ok := VerifyAuthorization(x, r, a);
    if !ok { return None; }
    return Some(Resolution(b.policy, d, a));
  }

  // ---- runtime and gate ----

  /** A callback, known by name. */
  datatype Handler = Handler(name: string)

  datatype Registration = Registration(contract: Contract, handler: Option<Handler>)

  datatype Runtime = Runtime(resolver: Resolver, handlers: map<Contract, Handler>)

  /** A chain and its head resolve exactly when the chain verifies. */
  lemma ResolverValidIff(x: Signing, c: Chain)
    requires c.manifests != [] && |c.rotations| == |c.manifests| - 1
    ensures ValidResolver(x, Resolver(c, HeadOf(c))) <==> VerifiedChain(x, c)
  {
    hide VerifiedChain;
  }

  ghost predicate Complete(g: Registration) {
    g.contract.actionKind != "" && g.contract.target != "" && g.handler.Some?
  }

  /** Registrations become a table with one handler for each contract; incomplete or repeated ones are refused. */
  method NewRuntime(r: Resolver, gs: seq<Registration>) returns (rt: Option<Runtime>)
    ensures rt.Some? <==>
              && |gs| > 0
              && (forall g | g in gs :: g.contract.actionKind != "" && g.contract.target != "" && g.handler.Some?)
              && forall i, j | 0 <= i < j < |gs| :: gs[i].contract != gs[j].contract
    ensures rt.Some? ==> rt.value.resolver == r && forall c | c in rt.value.handlers :: exists g ::
              g in gs && g.contract == c
    ensures rt.Some? ==> forall g | g in gs ::
              g.contract in rt.value.handlers && g.handler == Some(rt.value.handlers[g.contract])
  {
    if |gs| == 0 { return None; }
    var handlers: map<Contract, Handler> := map[];
    ghost var first: map<Contract, int> := map[];
    for i := 0 to |gs|
      invariant first.Keys == handlers.Keys
      invariant forall c | c in first :: 0 <= first[c] < i && gs[first[c]].contract == c
      invariant forall j | 0 <= j < i :: Complete(gs[j]) && gs[j].contract in first && first[gs[j].contract] == j
      invariant forall c | c in handlers :: gs[first[c]].handler == Some(handlers[c])
    {
      var g := gs[i];
      assert g in gs;
      if g.contract.actionKind == "" || g.contract.target == "" || g.handler.None? { return None; }
      if g.contract in handlers {
        assert gs[first[g.contract]].contract == gs[i].contract;
        return None;
      }
      handlers := handlers[g.contract := g.handler.value];
      first := first[g.contract := i];
    }
    return Some(Runtime(r, handlers));
  }

  datatype Request = Request(declaredClass: string, contract: Contract, inputs: Object)

  datatype Operation = Operation(operationClass: string, contract: Contract, inputs: Object, descriptor: Descriptor)

  predicate OperationOk(o: Operation) {
    && o.operationClass != "" && o.operationClass == o.descriptor.material.operationClass
    && DescriptorVerified(o.descriptor, o.contract, o.inputs)
  }

  datatype Gate = Gate(policy: Policy, evidence: Evidence, runtime: Runtime, authorization: Authorization,
                       operation: Operation)

  datatype GateError = NoBinding | ClassMismatch | PolicyMismatch | BadOperation | NoHandler | BadTrustInput

  /** handlerFor. */
  function HandlerFor(rt: Runtime, o: Operation): Option<Handler> {
    if OperationOk(o) && o.contract in rt.handlers then Some(rt.handlers[o.contract]) else None
  }

  /** What a gate stands for: an operation of a current binding, with that binding's own policy. */
  ghost predicate GateFor(x: Signing, g: Gate, b: Binding) {
    && ValidResolver(x, g.runtime.resolver) && b in BindingsOf(Current(g.runtime.resolver))
    && Authorises(g.runtime.resolver, b, g.authorization) && BindingOk(b)
    && g.authorization == Resolved(g.runtime.resolver, b, g.operation.inputs)
    && NewDescriptor(b, g.operation.inputs) == Some(g.operation.descriptor)
    && g.policy == b.policy && ValidPolicy(b.policy) && ValidEvidence(g.evidence)
    && g.operation.contract == ContractOf(b) && g.operation.operationClass == b.operationClass
    && OperationOk(g.operation)
    && g.operation.contract in g.runtime.handlers
  }

  /** The caller's own claims: a declared class or a requested policy must be the binding's. */
  ghost predicate ClaimsMatch(b: Binding, request: Request, requested: Option<Policy>) {
    && (request.declaredClass != "" ==> request.declaredClass == b.operationClass)
    && (requested.Some? ==> requested.value == b.policy)
  }

  /** VerifyRequestedPolicy: validity and hash equality, which together are equality of policies. */
  predicate RequestedVerified(a: Authorization, requested: Policy) {
    ValidAuthorization(a) && ValidPolicy(requested) && requested.policyHash == a.material.policyHash
  }

  lemma RequestedIsBound(x: Signing, r: Resolver, b: Binding, a: Authorization, requested: Policy)
    requires ValidResolver(x, r) && Authorises(r, b, a)
    ensures RequestedVerified(a, requested) <==> requested == b.policy
  {
    AuthorizationValid(x, r, b, a.material.inputHash, a.material.descriptorHash);
  }

  /** newPolicyAuthorityGate. */
  method NewGate(ghost x: Signing, rt: Runtime, request: Request, requested: Option<Policy>, evidence: Evidence)
    returns (r: Result<Gate, GateError>)
    requires ValidResolver(x, rt.resolver)
    ensures r.Ok? <==>
              && ValidEvidence(evidence) && request.contract in rt.handlers
              && exists b ::
                   && b in BindingsOf(Current(rt.resolver))
                   && b.actionKind == request.contract.actionKind && b.target == request.contract.target
                   && b.sideEffect == request.contract.sideEffect
                   && request.declaredClass in {"", b.operationClass} && requested in {None, Some(b.policy)}
    ensures r.Ok? <==> && ValidEvidence(evidence) && request.contract in rt.handlers
                       && exists b :: Bound(rt.resolver, request.contract, b) && ClaimsMatch(b, request, requested)
    ensures r.Ok? ==> forall b | Bound(rt.resolver, request.contract, b) :: GateFor(x, r.value, b)
    ensures r.Ok? ==>
              && r.value.runtime == rt && r.value.evidence == evidence
              && r.value.operation.inputs == request.inputs
    ensures r.Ok? ==> && r.value.authorization.material.inputHash == Sha256(request.inputs)
                      && r.value.authorization.material.descriptorHash == r.value.operation.descriptor.descriptorHash
  {
    ChainShape(x, rt.resolver.chain);
    hide VerifiedChain, AuthorizationFor, ValidAuthorization, ValidDescriptor, ValidEvidence;
    var res := ResolveCurrent(x, rt.resolver, request.contract, request.inputs);
    if res.None? { return Err(NoBinding); }
    ghost var b :| Bound(rt.resolver, request.contract, b);
    forall c | Bound(rt.resolver, request.contract, c) ensures c == b {
      BoundOnce(x, rt.resolver, request.contract, b, c);
    }
    var policy, descriptor, authorization := res.value.policy, res.value.descriptor, res.value.authorization;
    if request.declaredClass != "" && request.declaredClass != descriptor.material.operationClass {
      return Err(ClassMismatch);
    }
    if requested.Some? {
      RequestedIsBound(x, rt.resolver, b, authorization, requested.value);
      if !RequestedVerified(authorization, requested.value) { return Err(PolicyMismatch); }
      if requested.value.policyHash != policy.policyHash { return Err(PolicyMismatch); }
    }
    var operation := Operation(descriptor.material.operationClass, request.contract, request.inputs, descriptor);
    if !OperationOk(operation) { return Err(BadOperation); }
    if HandlerFor(rt, operation).None? { return Err(NoHandler); }
    if !ValidPolicy(policy) || !ValidEvidence(evidence) { return Err(BadTrustInput); }
    return Ok(Gate(policy, evidence, rt, authorization, operation));
  }

  lemma BoundOnce(x: Signing, r: Resolver, c: Contract, a: Binding, b: Binding)
    requires ValidResolver(x, r) && Bound(r, c, a) && Bound(r, c, b)
    ensures a == b
  {
    GenerationAt(x, r.chain, |r.chain.manifests| - 1);
    ContractsPickOne(BindingsOf(Current(r)), a, b);
  }

  /** What Execute did: refused, or called one handler with the gate's operation. */
  datatype Execution = Denied(unmet: seq<string>) | Broken | Called(handler: Handler, operation: Operation)

  /**
    A handler runs exactly when the evidence proves every requirement of the
    current binding's policy, and it is the one registered for that binding's contract.
   */
  method Execute(ghost x: Signing, ghost b: Binding, g: Gate) returns (r: Execution)
    requires GateFor(x, g, b)
    ensures r.Called? <==> AtLeast(Proven(g.evidence), b.policy.material.requirements)
    ensures r.Called? ==>
              && ContractOf(b) in g.runtime.handlers
              && r == Called(g.runtime.handlers[ContractOf(b)], g.operation)
    ensures !r.Called? ==> r == Denied(Unmet(b.policy.material.requirements, g.evidence.material))
  {
    AllowedIffProven(g.policy, g.evidence);
    var decision := Evaluate(g.policy, g.evidence);
    match decision {
      case Err(_) => return Broken;
      case Ok(d) => if !d.material.allowed { return Denied(d.material.unmet); }
    }
    var handler := HandlerFor(g.runtime, g.operation);
    match handler
    case None => return Broken;
    case Some(h) => return Called(h, g.operation);
  }
}
