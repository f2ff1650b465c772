/**
  How much of a policy chain an accepted head commits to: not the whole prefix,
  and exactly the whole prefix when the rotation hashes agree.
 */
module PolicyPrefix {
  import opened Common
  import opened Ordering
  import opened Signatures
  import opened TrustPolicy
  import opened PolicyManifest
  import opened PolicyRotation
  import opened PolicyHead

  // ---- when two chains share a prefix ----

  /** The two chains are the same up to and including index i. */
  ghost predicate SamePrefix(a: Chain, b: Chain, i: nat)
    requires i < |a.manifests| && i < |b.manifests|
    requires |a.rotations| == |a.manifests| - 1 && |b.rotations| == |b.manifests| - 1
  {
    a.manifests[..i + 1] == b.manifests[..i + 1] && a.rotations[..i] == b.rotations[..i]
  }

  /** The rotations before index i carry the same hashes. */
  ghost predicate SameRotationHashes(a: Chain, b: Chain, i: nat)
    requires i <= |a.rotations| && i <= |b.rotations|
  {
    forall k | 0 <= k < i :: a.rotations[k].rotationHash == b.rotations[k].rotationHash
  }

  lemma RootFixesFirst(x: Signing, a: Chain, b: Chain)
    requires VerifiedChain(x, a) && VerifiedChain(x, b) && a.root == b.root
    ensures a.manifests[0] == b.manifests[0]
  {
    hide RotationVerified;
    SignedHashFixesManifest(x, a.manifests[0], b.manifests[0]);
  }

  lemma RotationHashFixesNext(x: Signing, r: Rotation, m: SignedManifest, n: SignedManifest,
                              r': Rotation, m': SignedManifest, n': SignedManifest)
    requires RotationVerified(x, r, m, n) && RotationVerified(x, r', m', n') && r.rotationHash == r'.rotationHash
    ensures r == r' && n == n'
  {
    hide ValidManifest, WeakenedIn;
    assert r.material == r'.material;
    SignedHashFixesManifest(x, n, n');
  }

  /**
    Two verified chains under one root are the same up to index i, every manifest
    and every rotation, exactly when the hashes of their rotations up to i are.
    The head at i carries only the last of those hashes.
   */
  lemma {:induction false} PrefixIffRotationHashes(x: Signing, a: Chain, b: Chain, i: nat)
    requires VerifiedChain(x, a) && VerifiedChain(x, b) && a.root == b.root
    requires i < |a.manifests| && i < |b.manifests|
    ensures SamePrefix(a, b, i) <==> SameRotationHashes(a, b, i)
  {
    hide SelfVerified, RotationVerified;
    if SamePrefix(a, b, i) {
      forall k | 0 <= k < i ensures a.rotations[k] == b.rotations[k] {
        assert a.rotations[..i][k] == b.rotations[..i][k];
      }
    }
    if i == 0 {
      RootFixesFirst(x, a, b);
      assert a.manifests[..1] == [a.manifests[0]] && b.manifests[..1] == [b.manifests[0]];
    } else if SameRotationHashes(a, b, i) {
      PrefixIffRotationHashes(x, a, b, i - 1);
      RotationHashFixesNext(x, a.rotations[i - 1], a.manifests[i - 1], a.manifests[i],
                            b.rotations[i - 1], b.manifests[i - 1], b.manifests[i]);
      assert a.manifests[..i + 1] == a.manifests[..i] + [a.manifests[i]];
      assert b.manifests[..i + 1] == b.manifests[..i] + [b.manifests[i]];
      assert a.rotations[..i] == a.rotations[..i - 1] + [a.rotations[i - 1]];
      assert b.rotations[..i] == b.rotations[..i - 1] + [b.rotations[i - 1]];
    }
  }

  /**
    After chain `a` was accepted, chain `b` can be opened on the same file.  It
    repeats all of `a` exactly when every rotation hash of `a` recurs in it.
   */
  lemma AcceptedChainRepeatedIff(x: Signing, a: Chain, b: Chain)
    requires VerifiedChain(x, a) && Succeeds(x, Some(HeadOf(a)), b) && a.root == b.root
    ensures |a.manifests| <= |b.manifests|
    ensures SamePrefix(a, b, |a.manifests| - 1) <==> SameRotationHashes(a, b, |a.rotations|)
  {
    NextOpenExtends(x, a, b);
    PrefixIffRotationHashes(x, a, b, |a.manifests| - 1);
  }

  // ---- a prefix that changes under an accepted head ----

  const OpenMaterial := PolicyMaterial(PolicyProtocol, "open", Requirements(false, false, false, false))
  const OpenPolicy := Policy(OpenMaterial, Sha256(OpenMaterial))
  const OnlyBinding := Binding("class", "kind", "target", false, OpenPolicy)

  /** The same single binding at every generation. */
  function ManifestAt(generation: Uint64): Manifest {
    var m := ManifestMaterial(ManifestProtocol, "authority", generation, [OnlyBinding]);
    Manifest(m, Sha256(m))
  }

  lemma ManifestAtValid(generation: Uint64)
    requires generation != 0
    ensures ValidManifest(ManifestAt(generation))
  {
    assert BindingOk(OnlyBinding);
    assert Keys(ClassOf, [OnlyBinding]) == ["class"];
  }

  /** Generation g of the authority, signed by the holder of `p` at time `at`. */
  ghost function Signed(x: Signing, p: string, generation: Uint64, at: string): SignedManifest
    requires x.publicKey(p).Some? && generation != 0
  {
    ManifestAtValid(generation);
    SignManifest(x, ManifestAt(generation), "issuer", p, at).value
  }

  lemma SignedFacts(x: Signing, p: string, generation: Uint64, at: string)
    requires x.Lawful() && x.publicKey(p).Some? && generation != 0 && at != ""
    ensures var s := Signed(x, p, generation, at);
            && SelfVerified(x, s) && AuthorityOf(s) == "authority" && GenerationOf(s) == generation
            && BindingsOf(s) == [OnlyBinding] && s.material.issuerKeyId == Sha256(x.publicKey(p).value)
            && s.material.issuerId == "issuer" && s.material.issuedAt == at
  {
    ManifestAtValid(generation);
    SignedManifestVerifies(x, ManifestAt(generation), "issuer", p, at);
    hide ValidManifest, SelfVerified;
  }

  lemma NothingWeakened()
    ensures WeakenedIn([OnlyBinding], [OnlyBinding]) == []
  {
    assert KeptBy(OnlyBinding, OnlyBinding) && OnlyBinding in [OnlyBinding];
    assert Kept(OnlyBinding, [OnlyBinding]);
    assert [OnlyBinding][..0] == [];
    assert WeakenedIn([], [OnlyBinding]) == [];
  }

  /** The rotation from one generation to the next, keeping everything. */
  function Onward(x: Signing, p: string, s: SignedManifest, t: SignedManifest): Rotation {
    RotationFor(x, s, t, p, false, [], "now")
  }

  lemma OnwardVerifies(x: Signing, p: string, generation: Uint64, at: string, later: string)
    requires x.Lawful() && x.publicKey(p).Some? && generation != 0 && Successor(generation) != 0
    requires at != "" && later != ""
    ensures var s, t := Signed(x, p, generation, at), Signed(x, p, Successor(generation), later);
            RotationVerified(x, Onward(x, p, s, t), s, t)
  {
    hide ValidManifest, SelfVerified, WeakenedIn;
    var s, t := Signed(x, p, generation, at), Signed(x, p, Successor(generation), later);
    SignedFacts(x, p, generation, at);
    SignedFacts(x, p, Successor(generation), later);
    NothingWeakened();
    RotationForVerifies(x, s, t, p, false, [], "now");
  }

  /** Four generations, of which the second is signed at time `second`. */
  ghost function FourGenerations(x: Signing, p: string, second: string): Chain
    requires x.publicKey(p).Some?
  {
    var s1, s2, s3, s4 := Signed(x, p, 1, "t"), Signed(x, p, 2, second), Signed(x, p, 3, "t"), Signed(x, p, 4, "t");
    var root := TrustRoot(TrustRootProtocol, AuthorityOf(s1), GenerationOf(s1), s1.material.manifest.manifestHash,
                          s1.signedHash, s1.material.issuerId, s1.material.issuerKeyId);
    Chain(root, [s1, s2, s3, s4], [Onward(x, p, s1, s2), Onward(x, p, s2, s3), Onward(x, p, s3, s4)])
  }

  lemma FourGenerationsVerified(x: Signing, p: string, second: string)
    requires x.Lawful() && x.publicKey(p).Some? && second != ""
    ensures VerifiedChain(x, FourGenerations(x, p, second))
  {
    hide ValidManifest, SelfVerified, RotationVerified, RotationFor;
    var c := FourGenerations(x, p, second);
    SignedFacts(x, p, 1, "t");
    OnwardVerifies(x, p, 1, "t", second);
    OnwardVerifies(x, p, 2, second, "t");
    OnwardVerifies(x, p, 3, "t", "t");
    RootOfSigned(x, p);
    forall i | 0 <= i < |c.rotations| ensures RotationVerified(x, c.rotations[i], c.manifests[i], c.manifests[i + 1]) {
      if i == 0 {} else if i == 1 {} else { assert i == 2; }
    }
  }

  lemma RootOfSigned(x: Signing, p: string)
    requires x.publicKey(p).Some?
    ensures Signed(x, p, 1, "t").signedHash.IsHex() && Signed(x, p, 1, "t").material.manifest.manifestHash.IsHex()
  {
    ManifestAtValid(1);
    hide ValidManifest;
  }

  /**
    Under every lawful scheme with a usable key: two verified chains with one root
    and one head that differ in their second manifest, and the store that accepted
    the first opens the second.
   */
  lemma PrefixCanBeSwapped(x: Signing, p: string) returns (a: Chain, b: Chain)
    requires x.Lawful() && x.publicKey(p).Some?
    ensures VerifiedChain(x, a) && VerifiedChain(x, b) && a.root == b.root && HeadOf(a) == HeadOf(b)
    ensures |a.manifests| == |b.manifests| == 4 && a.manifests[1] != b.manifests[1]
    ensures Succeeds(x, Some(HeadOf(a)), b) && StoredAfter(x, Some(HeadOf(a)), b) == Some(HeadOf(a))
  {
    hide ValidManifest, SelfVerified, RotationVerified, RotationFor, VerifiedChain;
    a, b := FourGenerations(x, p, "t"), FourGenerations(x, p, "u");
    FourGenerationsVerified(x, p, "t");
    FourGenerationsVerified(x, p, "u");
    SignedFacts(x, p, 2, "t");
    SignedFacts(x, p, 2, "u");
    HeadsValid(x, a, 3);
    assert HeadAt(b, 3) == HeadOf(a);
    assert Contains(b, HeadOf(a));
  }

  /** Such a scheme exists. */
  lemma PrefixSwapExists() returns (x: Signing, a: Chain, b: Chain)
    ensures x.Lawful() && VerifiedChain(x, a) && Succeeds(x, Some(HeadOf(a)), b) && a.root == b.root
    ensures HeadOf(a) == HeadOf(b) && |a.manifests| == |b.manifests| == 4 && !SamePrefix(a, b, 3)
  {
    x := Gullible<Message>();
    GullibleLawful<Message>();
    a, b := PrefixCanBeSwapped(x, "key");
    hide VerifiedChain;
    assert a.manifests[..4][1] == a.manifests[1] && b.manifests[..4][1] == b.manifests[1];
  }
}
