/**
  Content-addressed evidence bundles (internal/mirror/evidence_bundle.go): a
  manifest of seven artifact digests whose hash ignores their order.
 */
module EvidenceBundles {
  import opened Common
  import opened Ordering
  import opened ProofAuthority
  import opened ProofEnvelopes
  import Metro

  const EvidenceBundleProtocol := "mirror.evidence-bundle.v0.1"
  const ArtifactPacket := "metro.packet"
  const ArtifactRoute := "metro.route"
  const ArtifactResult := "effect.result"
  const ArtifactReceipt := "metro.receipt"
  const ArtifactAuthorityPolicy := "mirror.authority-policy"
  const ArtifactProofEnvelope := "mirror.proof-envelope"
  const ArtifactReplayReport := "mirror.replay-report"

  const RequiredKinds: seq<string> := [
    ArtifactPacket, ArtifactRoute, ArtifactResult, ArtifactReceipt, ArtifactAuthorityPolicy, ArtifactProofEnvelope,
    ArtifactReplayReport]

  /** A `cas://sha256/` reference, or any other text. */
  datatype Ref = Cas(digest: Digest<string>) | OtherRef(text: string)

  datatype ArtifactDigest = ArtifactDigest(kind: string, hashAlgorithm: string, digest: Digest<string>, ref: Ref)

  datatype BundleMaterial = BundleMaterial(protocol: string, claimId: string, actionId: string,
                                           artifacts: seq<ArtifactDigest>)

  datatype EvidenceBundle = EvidenceBundle(
    protocol: string, claimId: string, actionId: string, artifacts: seq<ArtifactDigest>,
    bundleHash: Digest<BundleMaterial>)

  /** How each artifact is written and read; reading undoes writing. */
  datatype Codec = Codec(
    packetText: Metro.Packet -> string, readPacket: string -> Option<Metro.Packet>,
    routeText: Metro.Route -> string, readRoute: string -> Option<Metro.Route>,
    resultText: Object -> string, readResult: string -> Option<Object>,
    receiptText: Metro.Receipt -> string, readReceipt: string -> Option<Metro.Receipt>,
    policyText: PolicyText, readPolicy: string -> Option<AuthorityPolicy>,
    envelopeText: ProofEnvelope -> string, readEnvelope: string -> Option<ProofEnvelope>,
    reportText: ReplayReport -> string, readReport: string -> Option<ReplayReport>)
  {
    ghost predicate Lawful() {
      && (forall v :: readPacket(packetText(v)) == Some(v)) && (forall v :: readRoute(routeText(v)) == Some(v))
      && (forall v :: readResult(resultText(v)) == Some(v)) && (forall v :: readReceipt(receiptText(v)) == Some(v))
      && (forall v :: readPolicy(policyText(v)) == Some(v)) && (forall v :: readEnvelope(envelopeText(v)) == Some(v))
      && (forall v :: readReport(reportText(v)) == Some(v))
    }
  }

  function KindOf(a: ArtifactDigest): string { a.kind }

  function NewArtifact(kind: string, content: string): ArtifactDigest {
    ArtifactDigest(kind, "sha256", Sha256(content), Cas(Sha256(content)))
  }

  function ComputeHash(b: EvidenceBundle): Digest<BundleMaterial> {
    Sha256(BundleMaterial(b.protocol, b.claimId, b.actionId, SortBy(KindOf, b.artifacts)))
  }

  /** The text stored for each kind. */
  function ContentFor(x: Codec, e: ProofEnvelope, s: Sources, report: ReplayReport, kind: string): Option<string> {
    if kind == ArtifactPacket then Some(x.packetText(s.packet))
    else if kind == ArtifactRoute then Some(x.routeText(s.route))
    else if kind == ArtifactResult then Some(x.resultText(s.result))
    else if kind == ArtifactReceipt then Some(x.receiptText(s.receipt))
    else if kind == ArtifactAuthorityPolicy then
      match Canonical(s.policy) {
        case None => None
        case Some(c) => Some(x.policyText(c))
      }
    else if kind == ArtifactProofEnvelope then Some(x.envelopeText(e))
    else if kind == ArtifactReplayReport then Some(x.reportText(report))
    else None
  }

  /** The bundle of a reproduced proof. */
  function BundleFor(x: Codec, e: ProofEnvelope, s: Sources): EvidenceBundle
    requires Canonical(s.policy).Some?
  {
    var artifacts := [
      NewArtifact(ArtifactPacket, x.packetText(s.packet)), NewArtifact(ArtifactRoute, x.routeText(s.route)),
      NewArtifact(ArtifactResult, x.resultText(s.result)), NewArtifact(ArtifactReceipt, x.receiptText(s.receipt)),
      NewArtifact(ArtifactAuthorityPolicy, x.policyText(Canonical(s.policy).value)),
      NewArtifact(ArtifactProofEnvelope, x.envelopeText(e)),
      NewArtifact(ArtifactReplayReport, x.reportText(ReproducedReport(e)))];
    var b := EvidenceBundle(EvidenceBundleProtocol, e.claim.id, e.claim.actionId, artifacts, Empty);
    b.(bundleHash := ComputeHash(b))
  }

  // ---- validation ----

  predicate ArtifactOk(a: ArtifactDigest) {
    a.kind != "" && a.hashAlgorithm == "sha256" && a.digest.IsHex() && a.ref == Cas(a.digest)
  }

  ghost predicate DistinctKinds(artifacts: seq<ArtifactDigest>) {
    Distinct(Keys(KindOf, artifacts))
  }

  /** Each required kind exactly once, nothing else, and the hash of exactly these digests. */
  ghost predicate ValidBundle(b: EvidenceBundle) {
    && b.protocol == EvidenceBundleProtocol && b.claimId != "" && b.actionId != ""
    && DistinctKinds(b.artifacts) && (forall kind :: kind in Keys(KindOf, b.artifacts) <==> kind in RequiredKinds)
    && (forall a | a in b.artifacts :: ArtifactOk(a))
    && b.bundleHash == ComputeHash(b)
  }

  lemma RequiredKindsDistinct()
    ensures Distinct(RequiredKinds) && "" !in RequiredKinds
  {
  }

  /** Seven different kinds that include the seven required ones are those. */
  lemma KindsAreRequired(kinds: seq<string>)
    requires |kinds| == |RequiredKinds| && Distinct(kinds) && forall k | k in RequiredKinds :: k in kinds
    ensures forall k :: k in kinds <==> k in RequiredKinds
  {
    RequiredKindsDistinct();
    DistinctCard(kinds);
    DistinctCard(RequiredKinds);
    var required, given := set k | k in RequiredKinds, set k | k in kinds;
    assert required <= given;
    SubsetSameCard(required, given);
    forall k ensures k in kinds <==> k in RequiredKinds {
      assert k in given <==> k in required;
    }
  }

  lemma KindsHaveLength(kinds: seq<string>)
    requires Distinct(kinds) && forall k :: k in kinds <==> k in RequiredKinds
    ensures |kinds| == |RequiredKinds|
  {
    RequiredKindsDistinct();
    DistinctCard(kinds);
    DistinctCard(RequiredKinds);
    assert (set k | k in kinds) == (set k | k in RequiredKinds);
  }

  /** The loop over the artifacts. */
  method CheckArtifacts(artifacts: seq<ArtifactDigest>) returns (seen: set<string>, ok: bool)
    ensures ok <==> DistinctKinds(artifacts) && forall a | a in artifacts :: ArtifactOk(a)
    ensures ok ==> seen == set k | k in Keys(KindOf, artifacts)
  {
    seen := {};
    var kinds := Keys(KindOf, artifacts);
    for i := 0 to |artifacts|
      invariant forall j | 0 <= j < i :: ArtifactOk(artifacts[j])
      invariant seen == set k | k in kinds[..i]
      invariant Distinct(kinds[..i])
    {
      var a := artifacts[i];
      assert a in artifacts && kinds[..i + 1] == kinds[..i] + [a.kind];
      if a.kind == "" { return seen, false; }
      if a.kind in seen {
        RepeatedKind(kinds, i);
        return seen, false;
      }
      seen := seen + {a.kind};
      if a.hashAlgorithm != "sha256" || !a.digest.IsHex() || a.ref != Cas(a.digest) { return seen, false; }
    }
    assert kinds[..|artifacts|] == kinds;
    return seen, true;
  }

  lemma RepeatedKind(kinds: seq<string>, i: nat)
    requires i < |kinds| && kinds[i] in kinds[..i]
    ensures !Distinct(kinds)
  {
    var j :| 0 <= j < i && kinds[..i][j] == kinds[i];
    assert kinds[j] == kinds[i];
  }

  /** EvidenceBundle.Validate accepts exactly the valid bundles. */
  method Validate(b: EvidenceBundle) returns (ok: bool)
    ensures ok <==> ValidBundle(b)
  {
    if b.protocol != EvidenceBundleProtocol || b.claimId == "" || b.actionId == "" { return false; }
    if !b.bundleHash.IsHex() { return false; }
    ghost var kinds := Keys(KindOf, b.artifacts);
    if Distinct(kinds) && forall k :: k in kinds <==> k in RequiredKinds { KindsHaveLength(kinds); }
    if |b.artifacts| != |RequiredKinds| { return false; }
    var seen, checked := CheckArtifacts(b.artifacts);
    if !checked { return false; }
    for i := 0 to |RequiredKinds|
      invariant forall j | 0 <= j < i :: RequiredKinds[j] in seen
    {
      if RequiredKinds[i] !in seen { return false; }
    }
    KindsAreRequired(kinds);
    return b.bundleHash == ComputeHash(b);
  }

  ghost predicate HasKind(s: seq<ArtifactDigest>, kind: string) {
    exists i :: 0 <= i < |s| && s[i].kind == kind
  }

  lemma HasKindIff(s: seq<ArtifactDigest>, kind: string)
    ensures HasKind(s, kind) <==> kind in Keys(KindOf, s)
  {
    if i :| 0 <= i < |s| && s[i].kind == kind { assert Keys(KindOf, s)[i] == kind; }
    if kind in Keys(KindOf, s) {
      var i :| 0 <= i < |s| && Keys(KindOf, s)[i] == kind;
      assert s[i].kind == kind;
    }
  }

  /** Seven artifacts of different kinds, every required kind among them. */
  ghost predicate OneOfEachKind(s: seq<ArtifactDigest>) {
    && |s| == 7 && (forall i, j | 0 <= i < j < |s| :: s[i].kind != s[j].kind)
    && (forall kind | kind in RequiredKinds :: HasKind(s, kind))
  }

  lemma OneOfEachKindIff(s: seq<ArtifactDigest>)
    ensures OneOfEachKind(s) <==>
              DistinctKinds(s) && forall kind :: kind in Keys(KindOf, s) <==> kind in RequiredKinds
  {
    var kinds := Keys(KindOf, s);
    assert forall i | 0 <= i < |s| :: kinds[i] == s[i].kind;
    forall kind ensures HasKind(s, kind) <==> kind in kinds { HasKindIff(s, kind); }
    hide HasKind;
    if OneOfEachKind(s) { KindsAreRequired(kinds); }
    if DistinctKinds(s) && forall kind :: kind in kinds <==> kind in RequiredKinds {
      KindsHaveLength(kinds);
      forall i, j | 0 <= i < j < |s| ensures s[i].kind != s[j].kind { assert kinds[i] != kinds[j]; }
    }
  }

  /** A bundle is valid exactly when named, hashed, and made of one hashed artifact of each of the seven kinds. */
  lemma ValidBundleIff(b: EvidenceBundle)
    ensures ValidBundle(b) <==>
              && b.protocol == "mirror.evidence-bundle.v0.1" && b.claimId != "" && b.actionId != ""
              && OneOfEachKind(b.artifacts)
              && (forall a | a in b.artifacts ::
                    a.hashAlgorithm == "sha256" && (a.digest.Sha256? || a.digest.ForeignHex?) && a.ref == Cas(a.digest))
              && b.bundleHash ==
                 Sha256(BundleMaterial(b.protocol, b.claimId, b.actionId, SortBy(KindOf, b.artifacts)))
  {
    var s := b.artifacts;
    OneOfEachKindIff(s);
    RequiredKindsDistinct();
    forall a | a in s ensures a.kind in Keys(KindOf, s) { KindHeld(s, a.kind); }
    hide OneOfEachKind, DistinctKinds;
  }

  // ---- order independence ----

  /** Reordering the artifacts changes neither the hash nor the validity. */
  lemma OrderDoesNotMatter(b: EvidenceBundle, artifacts: seq<ArtifactDigest>)
    requires ValidBundle(b) && multiset(artifacts) == multiset(b.artifacts)
    ensures ComputeHash(b.(artifacts := artifacts)) == ComputeHash(b) && ValidBundle(b.(artifacts := artifacts))
  {
    SortIgnoresOrder(KindOf, b.artifacts, artifacts);
    var kinds, given := Keys(KindOf, b.artifacts), Keys(KindOf, artifacts);
    assert forall a :: a in artifacts <==> a in multiset(artifacts);
    assert forall a :: a in b.artifacts <==> a in multiset(b.artifacts);
    forall k ensures k in given <==> k in kinds {
      KindHeld(artifacts, k);
      KindHeld(b.artifacts, k);
    }
    DistinctCard(kinds);
    assert (set k | k in given) == (set k | k in kinds);
    assert |artifacts| == |multiset(artifacts)| == |multiset(b.artifacts)| == |b.artifacts|;
    FullCardDistinct(given);
  }

  lemma KindHeld(artifacts: seq<ArtifactDigest>, k: string)
    ensures k in Keys(KindOf, artifacts) <==> exists a :: a in artifacts && a.kind == k
  {
    var kinds := Keys(KindOf, artifacts);
    if k in kinds {
      var i :| 0 <= i < |kinds| && kinds[i] == k;
      assert artifacts[i] in artifacts && artifacts[i].kind == k;
    }
    if a :| a in artifacts && a.kind == k {
      var i :| 0 <= i < |artifacts| && artifacts[i] == a;
      assert kinds[i] == k;
    }
  }

  /** Equal bundle hashes mean the same digests, up to order. */
  lemma HashFixesArtifacts(b: EvidenceBundle, c: EvidenceBundle)
    requires ComputeHash(b) == ComputeHash(c)
    ensures multiset(b.artifacts) == multiset(c.artifacts) && b.claimId == c.claimId && b.actionId == c.actionId
  {
    SortMembers(KindOf, b.artifacts);
    SortMembers(KindOf, c.artifacts);
  }

  /** What a map lookup gives for an absent kind. */
  const NoArtifact := ArtifactDigest("", "", Empty, OtherRef(""))

  /** The last artifact of a kind. */
  function LastOfKind(artifacts: seq<ArtifactDigest>, kind: string): ArtifactDigest {
    if artifacts == [] then NoArtifact
    else if artifacts[|artifacts| - 1].kind == kind then artifacts[|artifacts| - 1]
    else LastOfKind(artifacts[..|artifacts| - 1], kind)
  }

  lemma {:induction false} OnlyOfKind(artifacts: seq<ArtifactDigest>, a: ArtifactDigest)
    requires DistinctKinds(artifacts) && a.kind != ""
    ensures LastOfKind(artifacts, a.kind) == a <==> a in artifacts
  {
    if artifacts != [] {
      var init, last := artifacts[..|artifacts| - 1], artifacts[|artifacts| - 1];
      assert artifacts == init + [last];
      assert forall j | 0 <= j < |init| :: init[j] == artifacts[j] && init[j].kind != last.kind;
      OnlyOfKind(init, a);
    }
  }

  /** sameArtifactSet: in lists without repeated or empty kinds, the same artifacts in any order. */
  method SameArtifactSet(left: seq<ArtifactDigest>, right: seq<ArtifactDigest>) returns (same: bool)
    ensures same <==> |left| == |right| && forall a | a in right :: LastOfKind(left, a.kind) == a
    ensures DistinctKinds(left) && (forall a | a in right :: a.kind != "") ==>
              (same <==> |left| == |right| && forall a | a in right :: a in left)
  {
    if DistinctKinds(left) {
      forall a | a in right && a.kind != "" ensures LastOfKind(left, a.kind) == a <==> a in left {
        OnlyOfKind(left, a);
      }
    }
    if |left| != |right| { return false; }
    var byKind: map<string, ArtifactDigest> := map[];
    for i := 0 to |left|
      invariant forall k :: (if k in byKind then byKind[k] else NoArtifact) == LastOfKind(left[..i], k)
    {
      assert left[..i + 1][..i] == left[..i];
      byKind := byKind[left[i].kind := left[i]];
    }
    assert left[..|left|] == left;
    for i := 0 to |right|
      invariant forall j | 0 <= j < i :: LastOfKind(left, right[j].kind) == right[j]
    {
      var a := right[i];
      assert a in right;
      if (if a.kind in byKind then byKind[a.kind] else NoArtifact) != a { return false; }
    }
    return true;
  }

  // ---- building ----

  lemma ArtifactAt(x: Codec, e: ProofEnvelope, s: Sources, i: nat)
    requires Canonical(s.policy).Some? && i < |RequiredKinds|
    ensures |BundleFor(x, e, s).artifacts| == |RequiredKinds|
    ensures ContentFor(x, e, s, ReproducedReport(e), RequiredKinds[i]).Some?
    ensures BundleFor(x, e, s).artifacts[i] ==
              NewArtifact(RequiredKinds[i], ContentFor(x, e, s, ReproducedReport(e), RequiredKinds[i]).value)
  {
    hide ComputeHash, Canonical, ReproducedReport;
  }

  /** Every artifact is the digest of the content for its kind. */
  lemma ArtifactsAreContents(x: Codec, e: ProofEnvelope, s: Sources, a: ArtifactDigest)
    requires Canonical(s.policy).Some? && a in BundleFor(x, e, s).artifacts
    ensures ContentFor(x, e, s, ReproducedReport(e), a.kind).Some?
    ensures a == NewArtifact(a.kind, ContentFor(x, e, s, ReproducedReport(e), a.kind).value)
  {
    var b := BundleFor(x, e, s);
    ArtifactAt(x, e, s, 0);
    hide BundleFor, ContentFor;
    var i :| 0 <= i < |b.artifacts| && b.artifacts[i] == a;
    ArtifactAt(x, e, s, i);
  }

  lemma BundleForValid(x: Codec, e: ProofEnvelope, s: Sources)
    requires Canonical(s.policy).Some? && e.claim.id != "" && e.claim.actionId != ""
    ensures ValidBundle(BundleFor(x, e, s))
  {
    var b := BundleFor(x, e, s);
    hide ContentFor;
    RequiredKindsDistinct();
    BundleKinds(x, e, s);
    forall a | a in b.artifacts ensures ArtifactOk(a) {
      ArtifactsAreContents(x, e, s, a);
      KindHeld(b.artifacts, a.kind);
    }
  }

  lemma BundleKinds(x: Codec, e: ProofEnvelope, s: Sources)
    requires Canonical(s.policy).Some?
    ensures Keys(KindOf, BundleFor(x, e, s).artifacts) == RequiredKinds
  {
    var b := BundleFor(x, e, s);
    ArtifactAt(x, e, s, 0);
    hide BundleFor, ContentFor;
    forall i | 0 <= i < |RequiredKinds| ensures Keys(KindOf, b.artifacts)[i] == RequiredKinds[i] {
      ArtifactAt(x, e, s, i);
    }
  }

  lemma ReproducibleHasPolicy(text: PolicyText, e: ProofEnvelope, s: Sources)
    requires Reproducible(text, e, s)
    ensures Canonical(s.policy).Some? && ValidEnvelope(e)
  {
    assert StepHolds(text, e, s, 7) && StepHolds(text, e, s, 0);
  }

  /** BuildEvidenceBundle: a bundle exactly for a reproducible proof, and it validates. */
  method Build(x: Codec, e: ProofEnvelope, s: Sources) returns (b: Option<EvidenceBundle>, report: ReplayReport)
    ensures b.Some? <==> Reproducible(x.policyText, e, s)
    ensures b.Some? ==>
              && Canonical(s.policy).Some? && b.value == BundleFor(x, e, s) && report == ReproducedReport(e)
              && ValidBundle(b.value)
    ensures b.None? ==> exists n :: StopsAt(x.policyText, e, s, report, n)
  {
    hide ValidBundle, Reproducible, ValidEnvelope;
    var replay, ok := Replay(x.policyText, e, s);
    if !ok { return None, replay; }
    ReproducibleHasPolicy(x.policyText, e, s);
    assert e.claim.id != "" && e.claim.actionId != "" by { ClaimNamed(e); }
    var snapshot := Canonicalise(s.policy);
    if snapshot.None? || replay.status != Reproduced { return None, replay; }
    var bundle := BundleFor(x, e, s);
    BundleForValid(x, e, s);
    var valid := Validate(bundle);
    if !valid { return None, replay; }
    return Some(bundle), replay;
  }

  lemma ClaimNamed(e: ProofEnvelope)
    requires ValidEnvelope(e)
    ensures e.claim.id != "" && e.claim.actionId != ""
  {
  }

  /** A bundle names the claim and its action, and holds the digests of the sources, the envelope and its report. */
  lemma BundleSays(x: Codec, e: ProofEnvelope, s: Sources)
    requires Canonical(s.policy).Some?
    ensures var b := BundleFor(x, e, s);
            && b.protocol == "mirror.evidence-bundle.v0.1" && b.claimId == e.claim.id && b.actionId == e.claim.actionId
            && LastOfKind(b.artifacts, "metro.packet").digest == Sha256(x.packetText(s.packet))
            && LastOfKind(b.artifacts, "metro.route").digest == Sha256(x.routeText(s.route))
            && LastOfKind(b.artifacts, "effect.result").digest == Sha256(x.resultText(s.result))
            && LastOfKind(b.artifacts, "metro.receipt").digest == Sha256(x.receiptText(s.receipt))
            && LastOfKind(b.artifacts, "mirror.authority-policy").digest ==
               Sha256(x.policyText(Canonical(s.policy).value))
            && LastOfKind(b.artifacts, "mirror.proof-envelope").digest == Sha256(x.envelopeText(e))
            && LastOfKind(b.artifacts, "mirror.replay-report").digest == Sha256(x.reportText(ReproducedReport(e)))
  {
    hide Canonical, ComputeHash, ReproducedReport, LastOfKind;
    ArtifactOfKind(x, e, s, 0);
    ArtifactOfKind(x, e, s, 1);
    ArtifactOfKind(x, e, s, 2);
    ArtifactOfKind(x, e, s, 3);
    ArtifactOfKind(x, e, s, 4);
    ArtifactOfKind(x, e, s, 5);
    ArtifactOfKind(x, e, s, 6);
  }

  lemma ArtifactOfKind(x: Codec, e: ProofEnvelope, s: Sources, i: nat)
    requires Canonical(s.policy).Some? && i < 7
    ensures |BundleFor(x, e, s).artifacts| == 7
    ensures LastOfKind(BundleFor(x, e, s).artifacts, RequiredKinds[i]) == BundleFor(x, e, s).artifacts[i]
  {
    var artifacts := BundleFor(x, e, s).artifacts;
    BundleKinds(x, e, s);
    hide BundleFor, LastOfKind;
    assert |Keys(KindOf, artifacts)| == 7 && Keys(KindOf, artifacts)[i] == artifacts[i].kind;
    RequiredKindsDistinct();
    OnlyOfKind(artifacts, artifacts[i]);
  }

  /**
    VerifyEvidenceBundle: the bundle must validate, the proof must reproduce, and
    the bundle must be the rebuilt one up to the order of its artifacts.
   */
  ghost predicate BundleVerified(x: Codec, b: EvidenceBundle, e: ProofEnvelope, s: Sources) {
    && ValidBundle(b) && Reproducible(x.policyText, e, s) && Canonical(s.policy).Some?
    && b.bundleHash == BundleFor(x, e, s).bundleHash
  }

  /** The comparison of artifact sets never fails once the bundle hashes agree. */
  method Verify(x: Codec, b: EvidenceBundle, e: ProofEnvelope, s: Sources) returns (report: Option<ReplayReport>)
    ensures report.Some? <==> BundleVerified(x, b, e, s)
    ensures report.Some? ==> report.value == ReproducedReport(e)
  {
    hide Reproducible, Canonical;
    var valid := Validate(b);
    if !valid { return None; }
    var rebuilt, replay := Build(x, e, s);
    if rebuilt.None? { return None; }
    if b.bundleHash != rebuilt.value.bundleHash { return None; }
    HashFixesArtifacts(b, rebuilt.value);
    SameMembers(b.artifacts, rebuilt.value.artifacts);
    var same := SameArtifactSet(b.artifacts, rebuilt.value.artifacts);
    if !same { return None; }
    return Some(replay);
  }

  /** What verifies is the bundle of the reproduced proof, its artifacts in any order, and nothing else. */
  lemma VerifiedIffReordered(x: Codec, b: EvidenceBundle, e: ProofEnvelope, s: Sources)
    ensures BundleVerified(x, b, e, s) <==>
              && Reproducible(x.policyText, e, s) && Canonical(s.policy).Some?
              && multiset(b.artifacts) == multiset(BundleFor(x, e, s).artifacts)
              && b == BundleFor(x, e, s).(artifacts := b.artifacts)
  {
    hide Canonical, SortBy;
    if Reproducible(x.policyText, e, s) && Canonical(s.policy).Some? {
      var built := BundleFor(x, e, s);
      AllSteps(x.policyText, e, s);
      hide Reproducible, BundleFor;
      ClaimNamed(e);
      BundleForValid(x, e, s);
      if BundleVerified(x, b, e, s) { HashFixesArtifacts(b, built); }
      if multiset(b.artifacts) == multiset(built.artifacts) { OrderDoesNotMatter(built, b.artifacts); }
    }
  }

  lemma SameMembers(a: seq<ArtifactDigest>, b: seq<ArtifactDigest>)
    requires multiset(a) == multiset(b)
    ensures |a| == |b| && forall x :: x in a <==> x in b
  {
    assert |a| == |multiset(a)| == |multiset(b)| == |b|;
    assert forall x :: x in a <==> x in multiset(a);
    assert forall x :: x in b <==> x in multiset(b);
  }
}
