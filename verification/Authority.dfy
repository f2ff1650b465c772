/**
  Content-addressed allow-lists (internal/adaptive/authority.go): canonical action
  lists, the binary search behind Allows, and what binds a measurement to a grant.
 */
module Authority {
  import opened Common
  import opened Ordering
  import opened Journal

  const AuthorityProtocol := "liminal.adaptive.authority.v0.1"

  datatype GrantMaterial = GrantMaterial(protocol: string, authorityId: string, epoch: string,
                                         allowedActions: seq<string>)

  datatype Grant = Grant(material: GrantMaterial, authorityHash: Digest<GrantMaterial>)

  datatype GrantError =
    | UnsupportedProtocol | IdentityMissing | NoAllowedActions | EmptyAllowedAction | DuplicateAllowedAction
    | NotCanonicalOrder | HashNotHex | HashMismatch

  /** Non-empty, strictly increasing, no empty name. */
  predicate Canonical(actions: seq<string>) {
    actions != [] && Ascending(actions) && "" !in actions
  }

  predicate ValidGrant(g: Grant) {
    && g.material.protocol == AuthorityProtocol && g.material.authorityId != "" && g.material.epoch != ""
    && Canonical(g.material.allowedActions) && g.authorityHash == Sha256(g.material)
  }

  /** A grant is valid exactly when it is hashed, named, and lists non-empty actions in strict order. */
  lemma ValidGrantIff(g: Grant)
    ensures ValidGrant(g) <==>
              var m := g.material;
              && g == Grant(GrantMaterial("liminal.adaptive.authority.v0.1", m.authorityId, m.epoch, m.allowedActions),
                            Sha256(m))
              && m.authorityId != "" && m.epoch != "" && |m.allowedActions| > 0
              && (forall i | 0 <= i < |m.allowedActions| :: m.allowedActions[i] != "")
              && (forall i, j | 0 <= i < j < |m.allowedActions| :: Less(m.allowedActions[i], m.allowedActions[j]))
  {
  }

  lemma PermutationDistinct(a: seq<string>, b: seq<string>)
    requires multiset(a) == multiset(b) && Distinct(a)
    ensures Distinct(b)
  {
    assert forall x :: x in a <==> x in multiset(a);
    assert forall x :: x in b <==> x in multiset(b);
    assert (set x | x in a) == (set x | x in b);
    DistinctCard(a);
    assert |a| == |multiset(a)| == |multiset(b)| == |b|;
    FullCardDistinct(b);
  }

  /** A sorted list whose neighbours differ is strictly increasing. */
  lemma SortedApart(s: seq<string>)
    requires Ordered(Itself, s) && forall i | 0 < i < |s| :: s[i - 1] != s[i]
    ensures Ascending(s)
  {
    forall i | 0 < i < |s| ensures Less(s[i - 1], s[i]) {
      LessTotal(s[i - 1], s[i]);
      assert !Less(Itself(s[i]), Itself(s[i - 1]));
    }
    AscendingFromSteps(s);
  }

  /** The loop over the sorted copy: no empty action, no two equal neighbours. */
  method CheckSorted(sorted: seq<string>) returns (r: Outcome<GrantError>)
    requires Ordered(Itself, sorted)
    ensures r.Pass? <==> Ascending(sorted) && "" !in sorted
  {
    for i := 0 to |sorted|
      invariant forall j | 0 <= j < i :: sorted[j] != ""
      invariant forall j | 0 < j < i :: sorted[j - 1] != sorted[j]
    {
      if sorted[i] == "" { return Fail(EmptyAllowedAction); }
      if i > 0 && sorted[i - 1] == sorted[i] {
        LessTotal(sorted[i], sorted[i]);
        return Fail(DuplicateAllowedAction);
      }
    }
    SortedApart(sorted);
    return Pass;
  }

  lemma SortedDistinct(actions: seq<string>, sorted: seq<string>)
    requires multiset(sorted) == multiset(actions) && Ordered(Itself, sorted)
    ensures Ascending(sorted) <==> Distinct(actions)
    ensures "" in sorted <==> "" in actions
  {
    assert "" in sorted <==> "" in multiset(sorted);
    assert "" in actions <==> "" in multiset(actions);
    if Ascending(sorted) {
      AscendingDistinct(sorted);
      PermutationDistinct(sorted, actions);
    }
    if Distinct(actions) {
      PermutationDistinct(actions, sorted);
      SortedApart(sorted);
    }
  }

  /** Sorts a copy, then refuses an empty or repeated action. */
  method CanonicalActions(actions: seq<string>) returns (r: Result<seq<string>, GrantError>)
    ensures r.Ok? <==> actions != [] && "" !in actions && Distinct(actions)
    ensures r.Ok? ==> Canonical(r.value) && multiset(r.value) == multiset(actions)
  {
    if |actions| == 0 { return Err(NoAllowedActions); }
    var sorted := SortBy(Itself, actions);
    SortMembers(Itself, actions);
    SortOrdered(Itself, actions);
    SortedDistinct(actions, sorted);
    var checked := CheckSorted(sorted);
    if checked.Fail? { return Err(checked.error); }
    return Ok(sorted);
  }

  /** Validation recomputes the canonical list and the hash; it accepts exactly the valid grants. */
  method Validate(g: Grant) returns (r: Outcome<GrantError>)
    ensures r.Pass? <==> ValidGrant(g)
  {
    var m := g.material;
    if m.protocol != AuthorityProtocol { return Fail(UnsupportedProtocol); }
    if m.authorityId == "" || m.epoch == "" { return Fail(IdentityMissing); }
    if Canonical(m.allowedActions) { AscendingDistinct(m.allowedActions); }
    var canonical := CanonicalActions(m.allowedActions);
    if canonical.Err? { return Fail(canonical.error); }
    ghost var same := forall x :: x in canonical.value <==> x in m.allowedActions;
    assert same by {
      assert forall x :: x in canonical.value <==> x in multiset(canonical.value);
      assert forall x :: x in m.allowedActions <==> x in multiset(m.allowedActions);
    }
    assert |canonical.value| == |multiset(canonical.value)| == |m.allowedActions|;
    for i := 0 to |canonical.value|
      invariant canonical.value[..i] == m.allowedActions[..i]
    {
      if canonical.value[i] != m.allowedActions[i] {
        if Canonical(m.allowedActions) { AscendingUnique(canonical.value, m.allowedActions); }
        return Fail(NotCanonicalOrder);
      }
    }
    assert canonical.value == canonical.value[..|canonical.value|];
    assert m.allowedActions == m.allowedActions[..|m.allowedActions|];
    if !g.authorityHash.IsHex() { return Fail(HashNotHex); }
    if g.authorityHash != Sha256(m) { return Fail(HashMismatch); }
    return Pass;
  }

  /** A grant over the given actions, whatever order they come in. */
  method NewGrant(authorityId: string, epoch: string, actions: seq<string>) returns (r: Result<Grant, GrantError>)
    ensures r.Ok? <==> authorityId != "" && epoch != "" && actions != [] && "" !in actions && Distinct(actions)
    ensures r.Ok? ==>
              && ValidGrant(r.value) && r.value.material.authorityId == authorityId
              && r.value.material.epoch == epoch
    ensures r.Ok? ==> multiset(r.value.material.allowedActions) == multiset(actions)
  {
    if authorityId == "" || epoch == "" { return Err(IdentityMissing); }
    var canonical := CanonicalActions(actions);
    if canonical.Err? { return Err(canonical.error); }
    var material := GrantMaterial(AuthorityProtocol, authorityId, epoch, canonical.value);
    return Ok(Grant(material, Sha256(material)));
  }

  /** Identity, epoch and the set of actions determine a valid grant, hash included. */
  lemma GrantIgnoresOrder(g: Grant, h: Grant)
    requires ValidGrant(g) && ValidGrant(h)
    requires g.material.authorityId == h.material.authorityId && g.material.epoch == h.material.epoch
    requires forall a :: a in g.material.allowedActions <==> a in h.material.allowedActions
    ensures g == h
  {
    AscendingUnique(g.material.allowedActions, h.material.allowedActions);
  }

  /** Never allows an unlisted action; on a valid grant it allows every listed one. */
  method Allows(g: Grant, action: string) returns (ok: bool)
    ensures ok ==> action != "" && action in g.material.allowedActions
    ensures Canonical(g.material.allowedActions) && action in g.material.allowedActions ==> ok
  {
    if action == "" { return false; }
    var allowed := g.material.allowedActions;
    var i := SearchStrings(allowed, action);
    if Ascending(allowed) && action in allowed {
      var j :| 0 <= j < |allowed| && allowed[j] == action;
      LessTotal(action, action);
      assert i <= j;
    }
    return i < |allowed| && allowed[i] == action;
  }

  /** The measured result names this grant and the action the experience claims. */
  predicate EvidenceAuthorised(hashText: Digest<GrantMaterial> -> string, g: Grant, e: Evidence) {
    var m, action := g.material, e.experience.selectedAction;
    && action in m.allowedActions && ValueString(e.result, "selected_action") == action
    && ValueString(e.result, "authority_protocol") == m.protocol
    && ValueString(e.result, "authority_id") == m.authorityId
    && ValueString(e.result, "authority_epoch") == m.epoch
    && ValueString(e.result, "authority_hash") == hashText(g.authorityHash)
  }

  method ValidateEvidence(hashText: Digest<GrantMaterial> -> string, g: Grant, e: Evidence) returns (ok: bool)
    ensures ok ==> EvidenceAuthorised(hashText, g, e)
    ensures ValidGrant(g) && EvidenceAuthorised(hashText, g, e) ==> ok
  {
    var allowed := Allows(g, e.experience.selectedAction);
    if !allowed { return false; }
    return && ValueString(e.result, "selected_action") == e.experience.selectedAction
           && ValueString(e.result, "authority_protocol") == g.material.protocol
           && ValueString(e.result, "authority_id") == g.material.authorityId
           && ValueString(e.result, "authority_epoch") == g.material.epoch
           && ValueString(e.result, "authority_hash") == hashText(g.authorityHash);
  }

  /** BindAuthorityResult: the four authority fields overwrite whatever the result says. */
  function BindResult(hashText: Digest<GrantMaterial> -> string, g: Grant, result: Object): Object {
    result["authority_protocol" := Str(g.material.protocol)]["authority_id" := Str(g.material.authorityId)]
          ["authority_epoch" := Str(g.material.epoch)]["authority_hash" := Str(hashText(g.authorityHash))]
  }
}
