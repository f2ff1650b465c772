/**
  The persisted chain head (internal/policyauthority/head.go): acceptance that
  resists rollback and forks, and what any sequence of opens on one state path keeps.
 */
module PolicyHead {
  import opened Common
  import opened PolicyManifest
  import opened PolicyRotation

  const ChainHeadProtocol := "liminal.policy-authority.chain-head.v1.1"

  datatype HeadMaterial = HeadMaterial(
    protocol: string, authorityId: string, generation: Uint64, signedHash: Digest<SignedHashMaterial>,
    rotationHash: Digest<RotationHashMaterial>)

  datatype ChainHead = ChainHead(material: HeadMaterial, headHash: Digest<HeadMaterial>)

  datatype HeadError = InvalidChain | InvalidHead | Rollback | ForkAuthority | ForkNotContained | ForkSameGeneration

  predicate ValidHead(h: ChainHead) {
    var m := h.material;
    && m.protocol == ChainHeadProtocol && m.authorityId != "" && m.generation != 0
    && m.signedHash.IsHex() && h.headHash.IsHex() && (m.rotationHash != Empty ==> m.rotationHash.IsHex())
    && h.headHash == Sha256(m)
  }

  /** The head of the chain cut after index i: that manifest and the rotation into it. */
  function HeadAt(c: Chain, i: nat): ChainHead
    requires i < |c.manifests| && |c.rotations| == |c.manifests| - 1
  {
    var s := c.manifests[i];
    var m := HeadMaterial(ChainHeadProtocol, AuthorityOf(s), GenerationOf(s), s.signedHash,
                          if i > 0 then c.rotations[i - 1].rotationHash else Empty);
    ChainHead(m, Sha256(m))
  }

  function HeadOf(c: Chain): ChainHead
    requires c.manifests != [] && |c.rotations| == |c.manifests| - 1
  {
    HeadAt(c, |c.manifests| - 1)
  }

  ghost predicate Contains(c: Chain, h: ChainHead)
    requires |c.rotations| == |c.manifests| - 1
  {
    exists i :: 0 <= i < |c.manifests| && HeadAt(c, i) == h
  }

  lemma HeadsValid(x: Signing, c: Chain, i: nat)
    requires VerifiedChain(x, c) && i < |c.manifests|
    ensures ValidHead(HeadAt(c, i)) && HeadAt(c, i).material.generation == c.root.rootGeneration + i
    ensures HeadAt(c, i).material.authorityId == c.root.authorityId
  {
    GenerationAt(x, c, i);
    if i > 0 { assert RotationVerified(x, c.rotations[i - 1], c.manifests[i - 1], c.manifests[i]); }
  }

  /**
    chainContainsHead stops at the first manifest of the accepted generation and
    compares only hashes; in a verified chain that decides containment.
   */
  method ChainContainsHead(x: Signing, accepted: ChainHead, c: Chain) returns (r: Result<bool, HeadError>)
    requires VerifiedChain(x, c)
    ensures r.Ok? <==> ValidHead(accepted)
    ensures r.Ok? ==> (r.value <==> Contains(c, accepted))
  {
    ChainShape(x, c);
    hide VerifiedChain, SelfVerified, RotationVerified;
    if !ValidHead(accepted) { return Err(InvalidHead); }
    for i := 0 to |c.manifests|
      invariant forall j | 0 <= j < i :: HeadAt(c, j).material.generation != accepted.material.generation
    {
      HeadsValid(x, c, i);
      if GenerationOf(c.manifests[i]) == accepted.material.generation {
        forall j | 0 <= j < |c.manifests| && HeadAt(c, j) == accepted ensures j == i { HeadsValid(x, c, j); }
        return Ok(HeadAt(c, i).headHash == accepted.headHash);
      }
    }
    return Ok(false);
  }

  /** What acceptChainHead answers and leaves in the state file, given what the file held. */
  ghost function Acceptance(stored: Option<ChainHead>, c: Chain): (r: (Outcome<HeadError>, Option<ChainHead>))
    requires c.manifests != [] && |c.rotations| == |c.manifests| - 1
  {
    var candidate := HeadOf(c);
    if stored.None? then (Pass, Some(candidate))
    else
      var accepted := stored.value;
      if !ValidHead(accepted) then (Fail(InvalidHead), stored)
      else if accepted.material.authorityId != candidate.material.authorityId then (Fail(ForkAuthority), stored)
      else if candidate.material.generation < accepted.material.generation then (Fail(Rollback), stored)
      else if !Contains(c, accepted) then (Fail(ForkNotContained), stored)
      else (Pass, Some(candidate))
  }

  /** The state file of one path. */
  class HeadStore {
    var stored: Option<ChainHead>

    constructor (stored: Option<ChainHead>)
      ensures this.stored == stored
    {
      this.stored := stored;
    }

    /**
      acceptChainHead on the head of a verified chain.  The same-generation
      comparison can never fail once the chain contains the accepted head.
     */
    method Accept(x: Signing, c: Chain) returns (r: Outcome<HeadError>)
      requires VerifiedChain(x, c)
      modifies this
      ensures (r, stored) == old(Acceptance(stored, c))
    {
      ChainShape(x, c);
      hide VerifiedChain, SelfVerified, RotationVerified;
      HeadsValid(x, c, |c.manifests| - 1);
      var candidate := HeadOf(c);
      if !ValidHead(candidate) { return Fail(InvalidHead); }
      if stored.None? {
        stored := Some(candidate);
        return Pass;
      }
      var accepted := stored.value;
      if !ValidHead(accepted) { return Fail(InvalidHead); }
      if accepted.material.authorityId != candidate.material.authorityId { return Fail(ForkAuthority); }
      if candidate.material.generation < accepted.material.generation { return Fail(Rollback); }
      var contained := ChainContainsHead(x, accepted, c);
      match contained {
        case Err(why) => return Fail(why);
        case Ok(found) => if !found { return Fail(ForkNotContained); }
      }
      if candidate.material.generation == accepted.material.generation {
        SameGenerationSameHead(x, c, accepted);
        if candidate.headHash != accepted.headHash { return Fail(ForkSameGeneration); }
        return Pass;
      }
      stored := Some(candidate);
      return Pass;
    }

    /** OpenDurableResolver: verify the chain, then accept its head. */
    method Open(x: Signing, path: string, c: Chain) returns (r: Outcome<HeadError>)
      modifies this
      ensures r.Pass? <==>
                path != "" && VerifiedChain(x, c) && (old(stored).None? || Contains(c, old(stored).value))
      ensures r.Pass? ==> stored == Some(HeadOf(c))
      ensures r.Fail? ==> stored == old(stored)
      ensures stored == if path != "" then old(StoredAfter(x, stored, c)) else old(stored)
    {
      if VerifiedChain(x, c) {
        ChainShape(x, c);
        AcceptsIffContains(x, stored, c);
      }
      if path == "" { return Fail(InvalidChain); }
      var verified := VerifyChain(x, c);
      if !verified { return Fail(InvalidChain); }
      r := Accept(x, c);
    }
  }

  /** A verified chain is accepted exactly when nothing was accepted before or it contains what was. */
  lemma AcceptsIffContains(x: Signing, stored: Option<ChainHead>, c: Chain)
    requires VerifiedChain(x, c)
    ensures c.manifests != [] && |c.rotations| == |c.manifests| - 1
    ensures Acceptance(stored, c).0.Pass? <==> stored.None? || Contains(c, stored.value)
    ensures Acceptance(stored, c).1 == if Acceptance(stored, c).0.Pass? then Some(HeadOf(c)) else stored
  {
    ChainShape(x, c);
    hide VerifiedChain, ValidHead, HeadAt;
    HeadsValid(x, c, |c.manifests| - 1);
    if stored.Some? && Contains(c, stored.value) {
      var i :| 0 <= i < |c.manifests| && HeadAt(c, i) == stored.value;
      HeadsValid(x, c, i);
    }
  }

  /** Which refusal is given: a broken head, a foreign authority, an older chain, or one without the accepted head. */
  lemma WhyRefused(x: Signing, accepted: ChainHead, c: Chain)
    requires VerifiedChain(x, c)
    ensures c.manifests != [] && |c.rotations| == |c.manifests| - 1
    ensures !ValidHead(accepted) ==> Acceptance(Some(accepted), c).0 == Fail(InvalidHead)
    ensures ValidHead(accepted) ==>
              var r := Acceptance(Some(accepted), c).0;
              && (accepted.material.authorityId != c.root.authorityId ==> r == Fail(ForkAuthority))
              && (accepted.material.authorityId == c.root.authorityId ==>
                    var newest := c.root.rootGeneration + |c.rotations|;
                    && (newest < accepted.material.generation ==> r == Fail(Rollback))
                    && (newest >= accepted.material.generation && !Contains(c, accepted) ==>
                          r == Fail(ForkNotContained)))
  {
    ChainShape(x, c);
    HeadsValid(x, c, |c.manifests| - 1);
    hide VerifiedChain, ValidHead, HeadAt;
  }

  /** A stored head is readable exactly when it is hashed, named, and refers to a manifest by hash. */
  lemma ValidHeadIff(h: ChainHead)
    ensures ValidHead(h) <==>
              var m := h.material;
              && h == ChainHead(m, Sha256(m)) && m.protocol == "liminal.policy-authority.chain-head.v1.1"
              && m.authorityId != "" && m.generation >= 1 && m.signedHash.IsHex()
              && (m.rotationHash == Empty || m.rotationHash.IsHex())
  {
  }

  /** So an ordinary next rotation always opens, and the store moves on to it. */
  lemma GrownChainOpens(x: Signing, a: Chain, b: Chain)
    requires VerifiedChain(x, a) && VerifiedChain(x, b)
    requires a.manifests <= b.manifests && a.rotations <= b.rotations
    ensures Succeeds(x, Some(HeadOf(a)), b) && StoredAfter(x, Some(HeadOf(a)), b) == Some(HeadOf(b))
  {
    ChainShape(x, a);
    ChainShape(x, b);
    hide VerifiedChain;
    var i := |a.manifests| - 1;
    assert HeadAt(b, i) == HeadAt(a, i);
    AcceptsIffContains(x, Some(HeadOf(a)), b);
  }

  /** What opening demands, for any state of the file. */
  lemma OpensIff(x: Signing, stored: Option<ChainHead>, c: Chain)
    ensures Succeeds(x, stored, c) <==> VerifiedChain(x, c) && (stored.None? || Contains(c, stored.value))
  {
    if VerifiedChain(x, c) { AcceptsIffContains(x, stored, c); }
  }

  lemma ChainShape(x: Signing, c: Chain)
    requires VerifiedChain(x, c)
    ensures c.manifests != [] && |c.rotations| == |c.manifests| - 1
  {
  }

  lemma SameGenerationSameHead(x: Signing, c: Chain, accepted: ChainHead)
    requires VerifiedChain(x, c) && Contains(c, accepted)
    requires HeadOf(c).material.generation == accepted.material.generation
    ensures HeadOf(c) == accepted
  {
    var i :| 0 <= i < |c.manifests| && HeadAt(c, i) == accepted;
    HeadsValid(x, c, i);
    HeadsValid(x, c, |c.manifests| - 1);
  }

  // ---- sequences of opens ----

  /** The state file after one open. */
  ghost function StoredAfter(x: Signing, stored: Option<ChainHead>, c: Chain): Option<ChainHead> {
    if VerifiedChain(x, c) then Acceptance(stored, c).1 else stored
  }

  ghost predicate Succeeds(x: Signing, stored: Option<ChainHead>, c: Chain) {
    VerifiedChain(x, c) && Acceptance(stored, c).0.Pass?
  }

  ghost function StoredAfterAll(x: Signing, stored: Option<ChainHead>, cs: seq<Chain>): Option<ChainHead> {
    if cs == [] then stored else StoredAfter(x, StoredAfterAll(x, stored, cs[..|cs| - 1]), cs[|cs| - 1])
  }

  /** What the state file may hold. */
  ghost predicate StoredOk(stored: Option<ChainHead>) {
    stored.Some? ==> ValidHead(stored.value)
  }

  /** `later` is no older than `earlier`, and the same generation means the same head. */
  ghost predicate NoOlder(earlier: Option<ChainHead>, later: Option<ChainHead>) {
    earlier.Some? ==>
      && later.Some? && later.value.material.authorityId == earlier.value.material.authorityId
      && earlier.value.material.generation <= later.value.material.generation
      && (earlier.value.material.generation == later.value.material.generation ==> later == earlier)
  }

  /**
    One open: a failure leaves the file alone; a success leaves the chain's head, and
    the chain contains the head it replaced.
   */
  lemma OpenAdvances(x: Signing, stored: Option<ChainHead>, c: Chain)
    requires StoredOk(stored)
    ensures var later := StoredAfter(x, stored, c);
            && StoredOk(later) && NoOlder(stored, later)
            && (!Succeeds(x, stored, c) ==> later == stored)
            && (Succeeds(x, stored, c) ==> later == Some(HeadOf(c)) && (stored.Some? ==> Contains(c, stored.value)))
  {
    hide SelfVerified, RotationVerified;
    if Succeeds(x, stored, c) {
      HeadsValid(x, c, |c.manifests| - 1);
      if stored.Some? && HeadOf(c).material.generation == stored.value.material.generation {
        SameGenerationSameHead(x, c, stored.value);
      }
    }
  }

  lemma {:induction false} OpensKeepStored(x: Signing, stored: Option<ChainHead>, cs: seq<Chain>)
    requires StoredOk(stored)
    ensures StoredOk(StoredAfterAll(x, stored, cs)) && NoOlder(stored, StoredAfterAll(x, stored, cs))
  {
    hide VerifiedChain, ValidHead, StoredAfter;
    if cs != [] {
      OpensKeepStored(x, stored, cs[..|cs| - 1]);
      OpenAdvances(x, StoredAfterAll(x, stored, cs[..|cs| - 1]), cs[|cs| - 1]);
    }
  }

  lemma {:induction false} OpensSplit(x: Signing, stored: Option<ChainHead>, a: seq<Chain>, b: seq<Chain>)
    ensures StoredAfterAll(x, stored, a + b) == StoredAfterAll(x, StoredAfterAll(x, stored, a), b)
  {
    hide StoredAfter;
    if b == [] {
      assert a + b == a;
    } else {
      assert (a + b)[..|a + b| - 1] == a + b[..|b| - 1];
      OpensSplit(x, stored, a, b[..|b| - 1]);
    }
  }

  /** Along any sequence of opens the accepted generation never falls, and two equal generations are one head. */
  lemma AcceptedNeverRollsBack(x: Signing, start: Option<ChainHead>, cs: seq<Chain>, i: nat, j: nat)
    requires StoredOk(start) && i <= j <= |cs|
    ensures NoOlder(StoredAfterAll(x, start, cs[..i]), StoredAfterAll(x, start, cs[..j]))
  {
    hide ValidHead, VerifiedChain, NoOlder;
    assert cs[..j] == cs[..i] + cs[i..j];
    OpensSplit(x, start, cs[..i], cs[i..j]);
    OpensKeepStored(x, start, cs[..i]);
    OpensKeepStored(x, StoredAfterAll(x, start, cs[..i]), cs[i..j]);
  }

  /**
    Two verified chains that share a head share the manifest there, the rotation
    into it and the manifest before it.  What lies
    before that may differ (see PolicyPrefix).
   */
  lemma SharedHeadSharedEnds(x: Signing, a: Chain, i: nat, b: Chain, j: nat)
    requires VerifiedChain(x, a) && VerifiedChain(x, b) && i < |a.manifests| && j < |b.manifests|
    requires HeadAt(a, i) == HeadAt(b, j)
    ensures a.manifests[i] == b.manifests[j] && (i == 0 <==> j == 0)
    ensures i > 0 ==> a.rotations[i - 1] == b.rotations[j - 1] && a.manifests[i - 1] == b.manifests[j - 1]
  {
    GenerationAt(x, a, i);
    GenerationAt(x, b, j);
    SignedHashFixesManifest(x, a.manifests[i], b.manifests[j]);
    if i > 0 { assert RotationVerified(x, a.rotations[i - 1], a.manifests[i - 1], a.manifests[i]); }
    if j > 0 { assert RotationVerified(x, b.rotations[j - 1], b.manifests[j - 1], b.manifests[j]); }
    if i > 0 { SignedHashFixesManifest(x, a.manifests[i - 1], b.manifests[j - 1]); }
  }

  /** `b` repeats the last manifest of `a` at index j, the rotation into it, and the manifest before it. */
  ghost predicate RepeatsEnd(a: Chain, b: Chain, j: int)
    requires a.manifests != [] && |a.rotations| == |a.manifests| - 1 && |b.rotations| == |b.manifests| - 1
  {
    && 0 <= j < |b.manifests| && b.manifests[j] == a.manifests[|a.manifests| - 1]
    && (|a.manifests| > 1 ==>
          j > 0 && b.rotations[j - 1] == a.rotations[|a.rotations| - 1]
            && b.manifests[j - 1] == a.manifests[|a.manifests| - 2])
    && (a.root == b.root ==> j == |a.manifests| - 1)
  }

  /**
    While the file holds the head of chain `a`, only a chain that repeats the end
    of `a` opens; under the same root it does so at the same index.
   */
  lemma NextOpenExtends(x: Signing, a: Chain, b: Chain)
    requires VerifiedChain(x, a) && Succeeds(x, Some(HeadOf(a)), b)
    ensures exists j :: RepeatsEnd(a, b, j)
  {
    HeadsValid(x, a, |a.manifests| - 1);
    OpenAdvances(x, Some(HeadOf(a)), b);
    var j :| 0 <= j < |b.manifests| && HeadAt(b, j) == HeadOf(a);
    HeadsValid(x, b, j);
    SharedHeadSharedEnds(x, a, |a.manifests| - 1, b, j);
    assert RepeatsEnd(a, b, j) by {
      assert HeadAt(b, j).material.generation == b.root.rootGeneration + j;
    }
  }
}
