/** Policy manifests and operation descriptors (internal/policyauthority/manifest.go). */
module PolicyManifest {
  import opened Common
  import opened Ordering
  import opened TrustPolicy

  const ManifestProtocol := "liminal.policy-authority.manifest.v1.1"
  const OperationDescriptorProtocol := "liminal.policy-authority.operation-descriptor.v1.1"

  /** Go's uint64. */
  type Uint64 = n: int | 0 <= n < 0x1_0000_0000_0000_0000

  /** Go's uint64 increment, which wraps. */
  function Successor(n: Uint64): Uint64 { (n + 1) % 0x1_0000_0000_0000_0000 }

  datatype Binding = Binding(operationClass: string, actionKind: string, target: string, sideEffect: bool,
                             policy: Policy)

  /** What an execution contract is looked up by. */
  datatype Contract = Contract(actionKind: string, target: string, sideEffect: bool)

  datatype ManifestMaterial = ManifestMaterial(protocol: string, authorityId: string, generation: Uint64,
                                               bindings: seq<Binding>)

  datatype Manifest = Manifest(material: ManifestMaterial, manifestHash: Digest<ManifestMaterial>)

  datatype ManifestError =
    | UnsupportedProtocol | IdentityMissing | NoBindings | IncompleteBinding | InvalidBoundPolicy
    | DuplicateClass | AmbiguousContract(first: string, second: string) | NotCanonicalOrder | ManifestHashMismatch

  function ClassOf(b: Binding): string { b.operationClass }

  function ContractOf(b: Binding): Contract { Contract(b.actionKind, b.target, b.sideEffect) }

  predicate BindingOk(b: Binding) {
    b.operationClass != "" && b.actionKind != "" && b.target != "" && ValidPolicy(b.policy)
  }

  /** No two bindings answer to the same execution contract. */
  ghost predicate ContractsDistinct(bs: seq<Binding>) {
    forall i, j | 0 <= i < j < |bs| :: ContractOf(bs[i]) != ContractOf(bs[j])
  }

  ghost predicate ClassesDistinct(bs: seq<Binding>) {
    forall i, j | 0 <= i < j < |bs| :: bs[i].operationClass != bs[j].operationClass
  }

  ghost predicate NeighboursDiffer(bs: seq<Binding>) {
    forall i | 0 < i < |bs| :: bs[i - 1].operationClass != bs[i].operationClass
  }

  ghost predicate AllOk(bs: seq<Binding>) {
    forall b | b in bs :: BindingOk(b)
  }

  /** Sorted by class, one binding to a class, one class to a contract. */
  ghost predicate CanonicalList(bs: seq<Binding>) {
    bs != [] && AllOk(bs) && Ascending(Keys(ClassOf, bs)) && ContractsDistinct(bs)
  }

  ghost predicate ValidManifest(m: Manifest) {
    && m.material.protocol == ManifestProtocol && m.material.authorityId != "" && m.material.generation != 0
    && CanonicalList(m.material.bindings) && m.manifestHash == Sha256(m.material)
  }

  // ---- canonical order ----

  /** Every position of `b` in a list, seen through its multiset. */
  lemma TwiceInMultiset(s: seq<Binding>, i: nat, j: nat)
    requires i < j < |s| && s[i] == s[j]
    ensures multiset(s)[s[i]] >= 2
  {
    var a, b := s[..j], s[j..];
    assert s == a + b;
    assert a[i] in multiset(a) && b[0] in multiset(b);
  }

  /** Distinctness of a derived property does not depend on the order of a list. */
  lemma {:induction false} DistinctAfterReorder(s: seq<Binding>, t: seq<Binding>)
    requires multiset(s) == multiset(t)
    ensures ContractsDistinct(s) ==> ContractsDistinct(t)
    ensures ClassesDistinct(s) ==> ClassesDistinct(t)
  {
    forall i, j | 0 <= i < j < |t| && (ContractsDistinct(s) || ClassesDistinct(s))
      ensures t[i] in s && t[j] in s && t[i] != t[j]
    {
      assert t[i] in multiset(s) && t[j] in multiset(s);
      if t[i] == t[j] {
        TwiceInMultiset(t, i, j);
        OnceWhenDistinct(s, t[i]);
        assert false;
      }
    }
  }

  lemma {:induction false} OnceWhenDistinct(s: seq<Binding>, b: Binding)
    requires ContractsDistinct(s) || ClassesDistinct(s)
    ensures multiset(s)[b] <= 1
  {
    if s != [] {
      var init, last := s[..|s| - 1], s[|s| - 1];
      assert s == init + [last];
      OnceWhenDistinct(init, b);
      forall k | 0 <= k < |init| ensures init[k] != last { assert init[k] == s[k]; }
      assert last !in multiset(init);
    }
  }

  lemma ReorderOk(s: seq<Binding>, t: seq<Binding>)
    requires multiset(s) == multiset(t)
    ensures AllOk(s) <==> AllOk(t)
  {
    assert forall b :: b in s <==> b in multiset(s);
    assert forall b :: b in t <==> b in multiset(t);
  }

  /** Sorted with differing neighbours is the same as sorted with all classes different. */
  lemma SortedClasses(bs: seq<Binding>)
    requires Ordered(ClassOf, bs)
    ensures Ascending(Keys(ClassOf, bs)) <==> ClassesDistinct(bs)
    ensures NeighboursDiffer(bs) <==> ClassesDistinct(bs)
  {
    var k := Keys(ClassOf, bs);
    if Ascending(k) { AscendingDistinct(k); }
    if NeighboursDiffer(bs) {
      forall i | 0 < i < |k| ensures Less(k[i - 1], k[i]) {
        LessTotal(k[i - 1], k[i]);
        assert !Less(ClassOf(bs[i]), ClassOf(bs[i - 1]));
      }
      AscendingFromSteps(k);
      AscendingDistinct(k);
      forall i, j | 0 <= i < j < |bs| ensures bs[i].operationClass != bs[j].operationClass { assert k[i] != k[j]; }
    }
    if ClassesDistinct(bs) {
      forall i, j | 0 <= i < j < |k| ensures k[i] != k[j] { assert bs[i].operationClass != bs[j].operationClass; }
      OrderedDistinctAscends(ClassOf, bs);
    }
  }

  /** The first loop: every binding complete and every policy valid. */
  method CheckBindings(bs: seq<Binding>) returns (r: Outcome<ManifestError>)
    ensures r.Pass? <==> AllOk(bs)
  {
    for i := 0 to |bs|
      invariant forall j | 0 <= j < i :: BindingOk(bs[j])
    {
      assert bs[i] in bs;
      if bs[i].operationClass == "" || bs[i].actionKind == "" || bs[i].target == "" { return Fail(IncompleteBinding); }
      if !ValidPolicy(bs[i].policy) { return Fail(InvalidBoundPolicy); }
    }
    return Pass;
  }

  /** The second loop, over the sorted list: no class and no contract twice. */
  method CheckSorted(bs: seq<Binding>) returns (r: Outcome<ManifestError>)
    ensures r.Pass? <==> NeighboursDiffer(bs) && ContractsDistinct(bs)
    ensures r.Fail? && r.error.AmbiguousContract? ==>
              exists i, j :: 0 <= i < j < |bs| && ContractOf(bs[i]) == ContractOf(bs[j])
                             && r.error == AmbiguousContract(bs[i].operationClass, bs[j].operationClass)
  {
    var contracts: map<Contract, string> := map[];
    ghost var first: map<Contract, int> := map[];
    for i := 0 to |bs|
      invariant forall j | 0 < j < i :: bs[j - 1].operationClass != bs[j].operationClass
      invariant first.Keys == contracts.Keys
      invariant forall c | c in first ::
            && 0 <= first[c] < i && ContractOf(bs[first[c]]) == c
            && contracts[c] == bs[first[c]].operationClass
      invariant forall j | 0 <= j < i :: ContractOf(bs[j]) in first && first[ContractOf(bs[j])] == j
    {
      if i > 0 && bs[i - 1].operationClass == bs[i].operationClass { return Fail(DuplicateClass); }
      var key := ContractOf(bs[i]);
      if key in contracts { return Fail(AmbiguousContract(contracts[key], bs[i].operationClass)); }
      contracts := contracts[key := bs[i].operationClass];
      first := first[key := i];
    }
    return Pass;
  }

  /**
    Checks, sorts a copy by class, and refuses a repeated class or contract: exactly
    those lists have a canonical form.
   */
  method CanonicalBindings(bs: seq<Binding>) returns (r: Result<seq<Binding>, ManifestError>)
    ensures r.Ok? <==> bs != [] && AllOk(bs) && ClassesDistinct(bs) && ContractsDistinct(bs)
    ensures r.Ok? ==> CanonicalList(r.value) && multiset(r.value) == multiset(bs)
  {
    if |bs| == 0 { return Err(NoBindings); }
    var complete := CheckBindings(bs);
    if complete.Fail? { return Err(complete.error); }
    var sorted := SortBy(ClassOf, bs);
    SortMembers(ClassOf, bs);
    SortOrdered(ClassOf, bs);
    DistinctAfterReorder(bs, sorted);
    DistinctAfterReorder(sorted, bs);
    ReorderOk(bs, sorted);
    SortedClasses(sorted);
    var distinct := CheckSorted(sorted);
    if distinct.Fail? { return Err(distinct.error); }
    return Ok(sorted);
  }

  lemma CanonicalClasses(bs: seq<Binding>)
    requires CanonicalList(bs)
    ensures ClassesDistinct(bs) && SortBy(ClassOf, bs) == bs
  {
    var k := Keys(ClassOf, bs);
    AscendingDistinct(k);
    forall i, j | 0 <= i < j < |bs| ensures bs[i].operationClass != bs[j].operationClass { assert k[i] != k[j]; }
    SortOfAscending(ClassOf, bs);
  }

  /** Two canonical lists of the same bindings are the same list. */
  lemma CanonicalUnique(a: seq<Binding>, b: seq<Binding>)
    requires CanonicalList(a) && CanonicalList(b) && multiset(a) == multiset(b)
    ensures a == b
  {
    CanonicalClasses(a);
    CanonicalClasses(b);
    AscendingDistinct(Keys(ClassOf, a));
    SortIgnoresOrder(ClassOf, a, b);
  }

  // ---- manifests ----

  /** A manifest is valid exactly when it is hashed, named, and binds complete operations in strict class order. */
  lemma ValidManifestIff(m: Manifest)
    ensures ValidManifest(m) <==>
              var bs := m.material.bindings;
              && m.manifestHash == Sha256(m.material) && m.material.protocol == ManifestProtocol
              && m.material.authorityId != "" && m.material.generation >= 1 && |bs| > 0
              && (forall i | 0 <= i < |bs| ::
                    && bs[i].operationClass != "" && bs[i].actionKind != "" && bs[i].target != ""
                    && ValidPolicy(bs[i].policy))
              && (forall i, j | 0 <= i < j < |bs| ::
                    && Less(bs[i].operationClass, bs[j].operationClass)
                    && (bs[i].actionKind, bs[i].target, bs[i].sideEffect) !=
                       (bs[j].actionKind, bs[j].target, bs[j].sideEffect))
  {
    var bs := m.material.bindings;
    assert forall i | 0 <= i < |bs| :: bs[i] in bs && Keys(ClassOf, bs)[i] == bs[i].operationClass;
    hide ValidPolicy;
  }

  method NewManifest(authorityId: string, generation: Uint64, bs: seq<Binding>)
    returns (r: Result<Manifest, ManifestError>)
    ensures r.Ok? <==>
              && authorityId != "" && generation != 0 && bs != [] && AllOk(bs) && ClassesDistinct(bs)
              && ContractsDistinct(bs)
    ensures r.Ok? ==> && ValidManifest(r.value) && multiset(r.value.material.bindings) == multiset(bs)
                      && r.value.material.authorityId == authorityId && r.value.material.generation == generation
  {
    if authorityId == "" || generation == 0 { return Err(IdentityMissing); }
    var canonical := CanonicalBindings(bs);
    if canonical.Err? { return Err(canonical.error); }
    var m := ManifestMaterial(ManifestProtocol, authorityId, generation, canonical.value);
    return Ok(Manifest(m, Sha256(m)));
  }

  /** The comparison with the recomputed list looks only at classes and policy hashes, and that is enough. */
  method Validate(m: Manifest) returns (r: Outcome<ManifestError>)
    ensures r.Pass? <==> ValidManifest(m)
  {
    var bs := m.material.bindings;
    if m.material.protocol != ManifestProtocol { return Fail(UnsupportedProtocol); }
    if m.material.authorityId == "" || m.material.generation == 0 { return Fail(IdentityMissing); }
    if CanonicalList(bs) { CanonicalClasses(bs); }
    var canonical := CanonicalBindings(bs);
    if canonical.Err? { return Fail(canonical.error); }
    var sorted := canonical.value;
    assert |sorted| == |multiset(sorted)| == |multiset(bs)| == |bs|;
    if CanonicalList(bs) { CanonicalUnique(sorted, bs); }
    for i := 0 to |sorted|
      invariant forall j | 0 <= j < i :: sorted[j].operationClass == bs[j].operationClass
    {
      if sorted[i].operationClass != bs[i].operationClass || sorted[i].policy.policyHash != bs[i].policy.policyHash {
        return Fail(NotCanonicalOrder);
      }
    }
    assert Keys(ClassOf, sorted) == Keys(ClassOf, bs);
    if !m.manifestHash.IsHex() || m.manifestHash != Sha256(m.material) { return Fail(ManifestHashMismatch); }
    return Pass;
  }

  /** The policy of the binding for a class, by linear scan. */
  function LinearPolicy(bs: seq<Binding>, operationClass: string): Option<Policy> {
    if bs == [] then None
    else if bs[0].operationClass == operationClass then Some(bs[0].policy)
    else LinearPolicy(bs[1..], operationClass)
  }

  lemma {:induction false} LinearFinds(bs: seq<Binding>, c: string, i: nat)
    requires i < |bs| && bs[i].operationClass == c && ClassesDistinct(bs)
    ensures LinearPolicy(bs, c) == Some(bs[i].policy)
  {
    if i > 0 {
      assert bs[0].operationClass != bs[i].operationClass;
      LinearFinds(bs[1..], c, i - 1);
    }
  }

  lemma {:induction false} LinearMisses(bs: seq<Binding>, c: string)
    requires forall b | b in bs :: b.operationClass != c
    ensures LinearPolicy(bs, c) == None
  {
    if bs != [] { LinearMisses(bs[1..], c); }
  }

  /** Binary search on the class finds what a linear scan finds. */
  method Resolve(m: Manifest, operationClass: string) returns (r: Option<Policy>)
    ensures r == if ValidManifest(m) && operationClass != "" then LinearPolicy(m.material.bindings, operationClass)
      else None
  {
    var valid := Validate(m);
    if valid.Fail? || operationClass == "" { return None; }
    var bs := m.material.bindings;
    CanonicalClasses(bs);
    var i := SearchStrings(Keys(ClassOf, bs), operationClass);
    LessTotal(operationClass, operationClass);
    if i >= |bs| || bs[i].operationClass != operationClass {
      forall b | b in bs ensures b.operationClass != operationClass {
        var j :| 0 <= j < |bs| && bs[j] == b;
        SearchMisses(Keys(ClassOf, bs), operationClass, i, j);
      }
      LinearMisses(bs, operationClass);
      return None;
    }
    LinearFinds(bs, operationClass, i);
    return Some(bs[i].policy);
  }

  lemma SearchMisses(k: seq<string>, x: string, i: nat, j: nat)
    requires Ascending(k) && i <= |k| && j < |k| && (i < |k| ==> k[i] != x)
    requires (forall n | 0 <= n < i :: Less(k[n], x)) && (forall n | i <= n < |k| :: !Less(k[n], x))
    ensures k[j] != x
  {
    LessTotal(x, x);
    if i < j { assert Less(k[i], k[j]) && !Less(k[i], x); }
  }

  // ---- operations ----

  datatype DescriptorMaterial = DescriptorMaterial(
    protocol: string, operationClass: string, actionKind: string, target: string, sideEffect: bool,
    inputHash: Digest<Object>)

  datatype Descriptor = Descriptor(material: DescriptorMaterial, descriptorHash: Digest<DescriptorMaterial>)

  predicate ValidDescriptor(d: Descriptor) {
    var m := d.material;
    && m.protocol == OperationDescriptorProtocol && m.operationClass != "" && m.actionKind != "" && m.target != ""
    && m.inputHash.IsHex() && d.descriptorHash.IsHex() && d.descriptorHash == Sha256(m)
  }

  function NewDescriptor(b: Binding, inputs: Object): Option<Descriptor> {
    if !BindingOk(b) then None
    else
      var m := DescriptorMaterial(OperationDescriptorProtocol, b.operationClass, b.actionKind, b.target, b.sideEffect,
                                  Sha256(inputs));
      Some(Descriptor(m, Sha256(m)))
  }

  /** VerifyOperationDescriptor. */
  predicate DescriptorVerified(d: Descriptor, c: Contract, inputs: Object) {
    && ValidDescriptor(d) && d.material.actionKind == c.actionKind && d.material.target == c.target
    && d.material.sideEffect == c.sideEffect
    && d.material.inputHash == Sha256(inputs)
  }

  /** A descriptor verifies exactly when it is the hashed record of a class, this contract and these inputs. */
  lemma DescriptorVerifiedIff(d: Descriptor, c: Contract, inputs: Object)
    ensures DescriptorVerified(d, c, inputs) <==>
              && d.material.operationClass != "" && c.actionKind != "" && c.target != ""
              && d.material == DescriptorMaterial(OperationDescriptorProtocol, d.material.operationClass, c.actionKind,
                                                  c.target, c.sideEffect, Sha256(inputs))
              && d.descriptorHash == Sha256(d.material)
  {
  }

  /** An operation is described exactly when its binding is complete, under the binding's own class. */
  lemma DescribedIffComplete(b: Binding, inputs: Object)
    ensures NewDescriptor(b, inputs).Some? <==>
              b.operationClass != "" && b.actionKind != "" && b.target != "" && ValidPolicy(b.policy)
    ensures NewDescriptor(b, inputs).Some? ==>
              && NewDescriptor(b, inputs).value.material.operationClass == b.operationClass
              && DescriptorVerified(NewDescriptor(b, inputs).value, ContractOf(b), inputs)
  {
    hide ValidPolicy;
  }

  /** A contract answers to at most one binding, so the scan order does not matter. */
  lemma ContractsPickOne(bs: seq<Binding>, a: Binding, b: Binding)
    requires ContractsDistinct(bs) && a in bs && b in bs && ContractOf(a) == ContractOf(b)
    ensures a == b
  {
    var i :| 0 <= i < |bs| && bs[i] == a;
    var j :| 0 <= j < |bs| && bs[j] == b;
  }

  /** The descriptor a binding gives verifies for the binding's contract and those inputs, and for no other. */
  lemma DescriptorPinsOperation(b: Binding, inputs: Object, c: Contract, others: Object)
    requires BindingOk(b)
    ensures NewDescriptor(b, inputs).Some?
    ensures DescriptorVerified(NewDescriptor(b, inputs).value, c, others) <==> c == ContractOf(b) && others == inputs
  {
    assert Sha256(others) == Sha256(inputs) ==> others == inputs;
  }

  /** Scans for the binding of an execution contract; every binding with that contract is the one returned. */
  method ResolveOperation(m: Manifest, c: Contract, inputs: Object) returns (r: Option<(Binding, Descriptor)>)
    ensures r.Some? <==> ValidManifest(m) && exists b :: b in m.material.bindings && ContractOf(b) == c
    ensures r.Some? ==> && r.value.0 in m.material.bindings && NewDescriptor(r.value.0, inputs) == Some(r.value.1)
                        && DescriptorVerified(r.value.1, c, inputs)
    ensures r.Some? ==> forall b | b in m.material.bindings && ContractOf(b) == c :: b == r.value.0
  {
    var valid := Validate(m);
    if valid.Fail? { return None; }
    hide NewDescriptor, DescriptorVerified, ValidPolicy;
    var bs := m.material.bindings;
    if c.actionKind == "" || c.target == "" {
      assert forall b | b in bs :: BindingOk(b);
      return None;
    }
    for i := 0 to |bs|
      invariant forall j | 0 <= j < i :: ContractOf(bs[j]) != c
    {
      if bs[i].actionKind == c.actionKind && bs[i].target == c.target && bs[i].sideEffect == c.sideEffect {
        var found := bs[i];
        assert found in bs && ContractOf(found) == c && BindingOk(found);
        DescriptorPinsOperation(found, inputs, c, inputs);
        forall b | b in bs && ContractOf(b) == c ensures b == found { ContractsPickOne(bs, b, found); }
        return Some((found, NewDescriptor(found, inputs).value));
      }
    }
    return None;
  }
}
