/**
  The content-addressed store (internal/mirror/cas.go) and bundles stored in it
  (internal/mirror/evidence_bundle_cas.go).
 */
module EvidenceCas {
  import opened Common
  import opened Ordering
  import opened ProofAuthority
  import opened ProofEnvelopes
  import opened EvidenceBundles

  type Objects = map<Digest<string>, string>

  /** What a reference resolves to: content whose own digest is the one named. */
  function Lookup(objects: Objects, ref: Ref): Option<string> {
    match ref
    case OtherRef(_) => None
    case Cas(digest) =>
      if digest.IsHex() && digest in objects && Sha256(objects[digest]) == digest then Some(objects[digest]) else None
  }

  /** The store has this content under the content's own digest. */
  predicate Held(objects: Objects, content: string) {
    Sha256(content) in objects && objects[Sha256(content)] == content
  }

  /** Looking a reference up yields the content it names exactly when that is held. */
  lemma LookupIffHeld(objects: Objects, ref: Ref, content: string)
    ensures Lookup(objects, ref) == Some(content) <==> ref == Cas(Sha256(content)) && Held(objects, content)
  {
  }

  /** What Resolve returns is what the reference looks up to. */
  lemma ResolvedIsLookup(objects: Objects, ref: Ref, content: Option<string>)
    requires content.Some? ==> ref == Cas(Sha256(content.value)) && Held(objects, content.value)
    requires content.None? ==> forall c :: ref == Cas(Sha256(c)) ==> !Held(objects, c)
    ensures content == Lookup(objects, ref)
  {
    if content.Some? { LookupIffHeld(objects, ref, content.value); }
    if Lookup(objects, ref).Some? { LookupIffHeld(objects, ref, Lookup(objects, ref).value); }
  }

  class MemoryCAS {
    var objects: Objects

    constructor ()
      ensures objects == map[]
    {
      objects := map[];
    }

    /** Stores content under its own digest. */
    method Put(content: string) returns (ref: Ref)
      modifies this
      ensures objects == old(objects)[Sha256(content) := content] && ref == Cas(Sha256(content))
    {
      var digest := Sha256(content);
      objects := objects[digest := content];
      return Cas(digest);
    }

    /** Reads content back, checking its digest again: the one content the reference names, if it is held. */
    method Resolve(ref: Ref) returns (content: Option<string>)
      ensures content.Some? ==> ref == Cas(Sha256(content.value)) && Held(objects, content.value)
      ensures content.None? ==> forall c :: ref == Cas(Sha256(c)) ==> !Held(objects, c)
    {
      match ref
      case OtherRef(_) => return None;
      case Cas(digest) =>
        if !digest.IsHex() || digest !in objects { return None; }
        if Sha256(objects[digest]) != digest { return None; }
        return Some(objects[digest]);
    }
  }

  /** The store after more content is put. */
  function AfterPuts(objects: Objects, contents: seq<string>): Objects {
    if contents == [] then objects
    else
      var n := |contents| - 1;
      AfterPuts(objects, contents[..n])[Sha256(contents[n]) := contents[n]]
  }

  /** A reference names one content for ever: what it resolved to once, it resolves to after any further puts. */
  lemma {:induction false} PutsKeep(objects: Objects, contents: seq<string>, ref: Ref)
    requires Lookup(objects, ref).Some?
    ensures Lookup(AfterPuts(objects, contents), ref) == Lookup(objects, ref)
    ensures ref == Cas(Sha256(Lookup(objects, ref).value))
  {
    if contents != [] {
      var n := |contents| - 1;
      PutsKeep(objects, contents[..n], ref);
      assert ref.digest == Sha256(contents[n]) ==> Lookup(objects, ref).value == contents[n];
    }
  }

  lemma {:induction false} PutIsFound(objects: Objects, contents: seq<string>, c: string)
    requires c in contents
    ensures Lookup(AfterPuts(objects, contents), Cas(Sha256(c))) == Some(c)
  {
    var n := |contents| - 1;
    if c != contents[n] {
      PutIsFound(objects, contents[..n], c);
    }
  }

  // ---- storing ----

  /** What storing a bundle writes, in the order of its artifacts. */
  function StoredContents(x: Codec, e: ProofEnvelope, s: Sources, artifacts: seq<ArtifactDigest>): seq<string> {
    if artifacts == [] then []
    else
      var n := |artifacts| - 1;
      StoredContents(x, e, s, artifacts[..n])
      + (match ContentFor(x, e, s, ReproducedReport(e), artifacts[n].kind) { case None => [] case Some(c) => [c] })
  }

  lemma {:induction false} ContentIsStored(x: Codec, e: ProofEnvelope, s: Sources, artifacts: seq<ArtifactDigest>,
                                           a: ArtifactDigest)
    requires a in artifacts && ContentFor(x, e, s, ReproducedReport(e), a.kind).Some?
    ensures ContentFor(x, e, s, ReproducedReport(e), a.kind).value in StoredContents(x, e, s, artifacts)
  {
    hide ContentFor;
    var n := |artifacts| - 1;
    if a != artifacts[n] {
      assert a in artifacts[..n];
      ContentIsStored(x, e, s, artifacts[..n], a);
    }
  }

  /**
    StoreEvidenceBundle: writes nothing for an unreproducible proof, and otherwise
    exactly the artifacts; no reference ever disagrees.
   */
  method StoreEvidenceBundle(x: Codec, cas: MemoryCAS, e: ProofEnvelope, s: Sources)
    returns (b: Option<EvidenceBundle>, report: ReplayReport)
    modifies cas
    ensures b.Some? <==> Reproducible(x.policyText, e, s)
    ensures b.None? ==> cas.objects == old(cas.objects)
    ensures b.Some? ==> && Canonical(s.policy).Some? && b.value == BundleFor(x, e, s) && report == ReproducedReport(e)
                        && cas.objects == AfterPuts(old(cas.objects), StoredContents(x, e, s, b.value.artifacts))
  {
    hide Reproducible, ContentFor, BundleFor, Canonical, ValidBundle;
    b, report := EvidenceBundles.Build(x, e, s);
    if b.None? { return; }
    var policy := Canonicalise(s.policy);
    if policy.None? { return None, report; }
    var artifacts := b.value.artifacts;
    ghost var before := cas.objects;
    for i := 0 to |artifacts|
      invariant cas.objects == AfterPuts(before, StoredContents(x, e, s, artifacts[..i]))
    {
      var entry := artifacts[i];
      assert artifacts[..i + 1][..i] == artifacts[..i];
      ArtifactsAreContents(x, e, s, entry);
      var content := ContentFor(x, e, s, report, entry.kind);
      match content {
        case None => return None, report;
        case Some(c) =>
          PutOneMore(before, StoredContents(x, e, s, artifacts[..i]), c);
          var ref := cas.Put(c);
          if ref != entry.ref { return None, report; }
      }
    }
    assert artifacts[..|artifacts|] == artifacts;
  }

  lemma PutOneMore(objects: Objects, contents: seq<string>, c: string)
    ensures AfterPuts(objects, contents + [c]) == AfterPuts(objects, contents)[Sha256(c) := c]
  {
    assert (contents + [c])[..|contents|] == contents;
  }

  // ---- verifying ----

  /** artifactDigest: the first digest listed for a kind. */
  function DigestOf(artifacts: seq<ArtifactDigest>, kind: string): Digest<string> {
    if artifacts == [] then Empty else if artifacts[0].kind == kind then artifacts[0].digest
    else DigestOf(artifacts[1..], kind)
  }

  lemma {:induction false} DigestAt(artifacts: seq<ArtifactDigest>, i: nat)
    requires DistinctKinds(artifacts) && i < |artifacts|
    ensures DigestOf(artifacts, artifacts[i].kind) == artifacts[i].digest
  {
    var kinds := Keys(KindOf, artifacts);
    if i > 0 {
      assert kinds[0] != kinds[i];
      assert Keys(KindOf, artifacts[1..]) == kinds[1..];
      DigestAt(artifacts[1..], i - 1);
    }
  }

  /** The content a digest is the digest of. */
  function ContentOf(artifacts: seq<ArtifactDigest>, kind: string): string {
    var d := DigestOf(artifacts, kind);
    if d.Sha256? then d.material else ""
  }

  ghost function ContentMap(artifacts: seq<ArtifactDigest>): map<string, string> {
    map k | k in Keys(KindOf, artifacts) :: ContentOf(artifacts, k)
  }

  ghost predicate AllHeld(objects: Objects, b: EvidenceBundle) {
    forall a | a in b.artifacts :: Lookup(objects, a.ref).Some?
  }

  /** Resolves every reference of a valid bundle; what comes back is fixed by the digests alone. */
  method ResolveAll(cas: MemoryCAS, b: EvidenceBundle) returns (r: Option<map<string, string>>)
    requires ValidBundle(b)
    ensures r.Some? <==> AllHeld(cas.objects, b)
    ensures r.Some? ==> r.value == ContentMap(b.artifacts)
  {
    hide ComputeHash, ContentOf, SortBy, Less;
    var resolved: map<string, string> := map[];
    ghost var kinds := Keys(KindOf, b.artifacts);
    for i := 0 to |b.artifacts|
      invariant forall j | 0 <= j < i :: Lookup(cas.objects, b.artifacts[j].ref).Some?
      invariant resolved == map k | k in kinds[..i] :: ContentOf(b.artifacts, k)
    {
      var entry := b.artifacts[i];
      assert entry in b.artifacts && ArtifactOk(entry);
      var content := cas.Resolve(entry.ref);
      ResolvedIsLookup(cas.objects, entry.ref, content);
      match content {
        case None => return None;
        case Some(c) =>
          if Sha256(c) != entry.digest { return None; }
          ResolvedContent(b.artifacts, i, c);
          resolved := resolved[entry.kind := c];
          assert kinds[..i + 1] == kinds[..i] + [entry.kind];
      }
    }
    assert kinds[..|b.artifacts|] == kinds;
    return Some(resolved);
  }

  lemma ResolvedContent(artifacts: seq<ArtifactDigest>, i: nat, c: string)
    requires DistinctKinds(artifacts) && i < |artifacts| && artifacts[i].digest == Sha256(c)
    ensures ContentOf(artifacts, artifacts[i].kind) == c
  {
    DigestAt(artifacts, i);
  }

  datatype Documents = Documents(sources: Sources, envelope: ProofEnvelope, report: ReplayReport)

  /** The seven decodings. */
  function Read(x: Codec, texts: map<string, string>): Option<Documents>
    requires forall k | k in RequiredKinds :: k in texts
  {
    assert RequiredKinds[0] == ArtifactPacket && RequiredKinds[1] == ArtifactRoute && RequiredKinds[2] == ArtifactResult
           && RequiredKinds[3] == ArtifactReceipt && RequiredKinds[4] == ArtifactAuthorityPolicy
           && RequiredKinds[5] == ArtifactProofEnvelope && RequiredKinds[6] == ArtifactReplayReport;
    var packet, route := x.readPacket(texts[ArtifactPacket]), x.readRoute(texts[ArtifactRoute]);
    var result, receipt := x.readResult(texts[ArtifactResult]), x.readReceipt(texts[ArtifactReceipt]);
    var policy, envelope := x.readPolicy(texts[ArtifactAuthorityPolicy]), x.readEnvelope(texts[ArtifactProofEnvelope]);
    var report := x.readReport(texts[ArtifactReplayReport]);
    if packet.None? || route.None? || result.None? || receipt.None? || policy.None? || envelope.None? || report.None?
      then None
    else Some(Documents(Sources(packet.value, route.value, result.value, receipt.value, policy.value), envelope.value,
                        report.value))
  }

  /** The documents check out against the bundle they were read from. */
  ghost predicate DocumentsVerified(x: Codec, b: EvidenceBundle, d: Documents) {
    && BundleVerified(x, b, d.envelope, d.sources)
    && d.report.status == Reproduced && DigestOf(b.artifacts, ArtifactReplayReport) == Sha256(x.reportText(d.report))
  }

  /** The outcome of verification when every reference resolves: a function of the bundle alone. */
  ghost function FromRefs(x: Codec, b: EvidenceBundle): Option<ReplayReport>
    requires ValidBundle(b)
  {
    match Read(x, ContentMap(b.artifacts))
    case None => None
    case Some(d) => if DocumentsVerified(x, b, d) then Some(ReproducedReport(d.envelope)) else None
  }

  /** VerifyEvidenceBundleFromCAS: the store decides only whether the references resolve. */
  method VerifyFromCas(x: Codec, cas: MemoryCAS, b: EvidenceBundle) returns (report: Option<ReplayReport>)
    ensures report == if ValidBundle(b) && AllHeld(cas.objects, b) then FromRefs(x, b) else None
  {
    hide ValidBundle, Read, BundleVerified, ContentMap, AllHeld;
    var valid := EvidenceBundles.Validate(b);
    if !valid { return None; }
    var resolved := ResolveAll(cas, b);
    if resolved.None? { return None; }
    TextsComplete(b);
    var documents := Read(x, resolved.value);
    if documents.None? { return None; }
    var d := documents.value;
    var replayed := EvidenceBundles.Verify(x, b, d.envelope, d.sources);
    if replayed.None? { return None; }
    if d.report.status != Reproduced { return None; }
    if DigestOf(b.artifacts, ArtifactReplayReport) != Sha256(x.reportText(d.report)) { return None; }
    return replayed;
  }

  lemma TextsComplete(b: EvidenceBundle)
    requires ValidBundle(b)
    ensures forall k | k in RequiredKinds :: k in ContentMap(b.artifacts)
  {
  }

  // ---- the round trip ----

  /** Each kind's content is found again in the bundle of a proof. */
  lemma BundleContent(x: Codec, e: ProofEnvelope, s: Sources, i: nat)
    requires Canonical(s.policy).Some? && ValidBundle(BundleFor(x, e, s)) && i < |RequiredKinds|
    ensures ContentFor(x, e, s, ReproducedReport(e), RequiredKinds[i]).Some?
    ensures RequiredKinds[i] in ContentMap(BundleFor(x, e, s).artifacts)
    ensures ContentMap(BundleFor(x, e, s).artifacts)[RequiredKinds[i]] ==
              ContentFor(x, e, s, ReproducedReport(e), RequiredKinds[i]).value
    ensures DigestOf(BundleFor(x, e, s).artifacts, RequiredKinds[i]) ==
              Sha256(ContentFor(x, e, s, ReproducedReport(e), RequiredKinds[i]).value)
  {
    ArtifactAt(x, e, s, i);
    hide BundleFor, ContentFor;
    var artifacts := BundleFor(x, e, s).artifacts;
    DigestAt(artifacts, i);
    ResolvedContent(artifacts, i, ContentFor(x, e, s, ReproducedReport(e), RequiredKinds[i]).value);
    assert Keys(KindOf, artifacts)[i] == RequiredKinds[i];
  }

  /** What is read back is what was written, with the policy in canonical form. */
  lemma ReadsBack(x: Codec, e: ProofEnvelope, s: Sources)
    requires x.Lawful() && Canonical(s.policy).Some? && ValidBundle(BundleFor(x, e, s))
    ensures Read(x, ContentMap(BundleFor(x, e, s).artifacts))
            == Some(Documents(s.(policy := Canonical(s.policy).value), e, ReproducedReport(e)))
    ensures DigestOf(BundleFor(x, e, s).artifacts, ArtifactReplayReport) == Sha256(x.reportText(ReproducedReport(e)))
  {
    hide ValidBundle, BundleFor, ContentMap, DigestOf, Canonical, ReproducedReport;
    BundleContent(x, e, s, 0); BundleContent(x, e, s, 1); BundleContent(x, e, s, 2); BundleContent(x, e, s, 3);
    BundleContent(x, e, s, 4); BundleContent(x, e, s, 5); BundleContent(x, e, s, 6);
  }

  /** A bundle built again from the canonical policy is the same bundle. */
  lemma CanonicalBundlesTheSame(x: Codec, e: ProofEnvelope, s: Sources)
    requires Canonical(s.policy).Some?
    ensures Canonical(Canonical(s.policy).value).Some?
    ensures BundleFor(x, e, s.(policy := Canonical(s.policy).value)) == BundleFor(x, e, s)
  {
    CanonicalKeepsAuthority(s.policy);
  }

  /**
    CAS round trip.  What StoreEvidenceBundle stores, verification reproduces from
    the references alone, after any further puts and whatever was there before.
   */
  lemma CasRoundTrip(x: Codec, e: ProofEnvelope, s: Sources, before: Objects, later: seq<string>, b: EvidenceBundle,
                     objects: Objects)
    requires x.Lawful() && Reproducible(x.policyText, e, s) && Canonical(s.policy).Some? && b == BundleFor(x, e, s)
    requires objects == AfterPuts(AfterPuts(before, StoredContents(x, e, s, b.artifacts)), later)
    ensures ValidBundle(b) && AllHeld(objects, b) && FromRefs(x, b) == Some(ReproducedReport(e))
  {
    hide ContentFor, Reproducible, StoredContents, AfterPuts, Lookup, BundleFor, ContentMap, Read;
    ReproducibleHasPolicy(x.policyText, e, s);
    ClaimNamed(e);
    BundleForValid(x, e, s);
    forall a | a in b.artifacts ensures Lookup(objects, a.ref).Some? {
      ArtifactsAreContents(x, e, s, a);
      ContentIsStored(x, e, s, b.artifacts, a);
      var c := ContentFor(x, e, s, ReproducedReport(e), a.kind).value;
      PutIsFound(before, StoredContents(x, e, s, b.artifacts), c);
      PutsKeep(AfterPuts(before, StoredContents(x, e, s, b.artifacts)), later, a.ref);
    }
    ReadsBack(x, e, s);
    CanonicalReplaysTheSame(x.policyText, e, s);
    CanonicalBundlesTheSame(x, e, s);
  }

  /** Conversely, an accepted bundle is the bundle of some reproducible proof, up to the order of its artifacts. */
  lemma AcceptedBundleIsGenuine(x: Codec, b: EvidenceBundle) returns (e: ProofEnvelope, s: Sources)
    requires ValidBundle(b) && FromRefs(x, b).Some?
    ensures Reproducible(x.policyText, e, s) && Canonical(s.policy).Some? && FromRefs(x, b) == Some(ReproducedReport(e))
    ensures multiset(b.artifacts) == multiset(BundleFor(x, e, s).artifacts)
            && b.bundleHash == BundleFor(x, e, s).bundleHash
  {
    var d := Read(x, ContentMap(b.artifacts)).value;
    e, s := d.envelope, d.sources;
    HashFixesArtifacts(b, BundleFor(x, e, s));
  }
}
