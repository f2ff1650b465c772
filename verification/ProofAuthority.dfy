/**
  Which executors may certify which effects (internal/mirror/authority_policy.go),
  and the canonical form a policy is hashed in.
 */
module ProofAuthority {
  import opened Common
  import opened Ordering

  const AuthorityPolicyProtocol := "mirror.authority-policy.v0.1"

  type Rules = map<string, seq<string>>

  datatype AuthorityPolicy = AuthorityPolicy(protocol: string, id: string, policyRef: string, executorsByAction: Rules)

  /** The JSON text of a policy. */
  type PolicyText = AuthorityPolicy -> string

  datatype AuthorityProof = AuthorityProof(
    policyId: string, policyRef: string, policyHash: Digest<string>, actionKind: string, executorId: string)

  /** The executor is listed for the action; anything else is denied. */
  predicate Authorises(p: AuthorityPolicy, actionKind: string, executorId: string) {
    && p.id != "" && actionKind != "" && executorId != ""
    && actionKind in p.executorsByAction && executorId in p.executorsByAction[actionKind]
  }

  method Authorize(p: AuthorityPolicy, actionKind: string, executorId: string) returns (ok: bool)
    ensures ok <==> && p.id != "" && actionKind != "" && executorId != "" && actionKind in p.executorsByAction
                    && exists i :: 0 <= i < |p.executorsByAction[actionKind]|
                                   && p.executorsByAction[actionKind][i] == executorId
    ensures ok <==> Authorises(p, actionKind, executorId)
  {
    if p.id == "" || actionKind == "" || executorId == "" { return false; }
    if actionKind !in p.executorsByAction || |p.executorsByAction[actionKind]| == 0 { return false; }
    var allowed := p.executorsByAction[actionKind];
    for i := 0 to |allowed|
      invariant executorId !in allowed[..i]
    {
      if allowed[i] == executorId { return true; }
    }
    return false;
  }

  // ---- the canonical form ----

  /** Drops an entry equal to the one just kept. */
  function Deduped(s: seq<string>): seq<string> {
    if s == [] then []
    else
      var kept, last := Deduped(s[..|s| - 1]), s[|s| - 1];
      if kept != [] && kept[|kept| - 1] == last then kept else kept + [last]
  }

  lemma {:induction false} DedupedElements(s: seq<string>, x: string)
    ensures x in Deduped(s) <==> x in s
    ensures s != [] ==> Deduped(s) != [] && Deduped(s)[|Deduped(s)| - 1] == s[|s| - 1]
  {
    if s != [] {
      DedupedElements(s[..|s| - 1], x);
      assert x in s <==> x in s[..|s| - 1] || x == s[|s| - 1];
    }
  }

  /** On a sorted list that is enough to remove every repetition. */
  lemma {:induction false} DedupedAscends(s: seq<string>)
    requires Ordered(Itself, s)
    ensures Ascending(Deduped(s))
  {
    if s != [] {
      var init, last := s[..|s| - 1], s[|s| - 1];
      DedupedAscends(init);
      var kept := Deduped(init);
      if kept != [] && kept[|kept| - 1] != last {
        NotAfter(s, kept[|kept| - 1]);
        LessTotal(kept[|kept| - 1], last);
        forall i | 0 <= i < |kept| ensures Less(kept[i], last) {
          if i < |kept| - 1 { LessTransitive(kept[i], kept[|kept| - 1], last); }
        }
      }
    }
  }

  /** What was kept of the earlier entries does not come after the last. */
  lemma NotAfter(s: seq<string>, x: string)
    requires Ordered(Itself, s) && s != [] && x in Deduped(s[..|s| - 1])
    ensures !Less(s[|s| - 1], x)
  {
    DedupedElements(s[..|s| - 1], x);
    var k :| 0 <= k < |s| - 1 && s[..|s| - 1][k] == x;
    assert !Less(Itself(s[|s| - 1]), Itself(s[k]));
  }

  lemma {:induction false} DedupedOfAscending(s: seq<string>)
    requires Ascending(s)
    ensures Deduped(s) == s
  {
    if s != [] {
      var init, last := s[..|s| - 1], s[|s| - 1];
      DedupedOfAscending(init);
      if init != [] {
        assert Less(s[|s| - 2], last);
        LessTotal(s[|s| - 2], last);
      }
      assert s == init + [last];
    }
  }

  /** One action's executors, sorted and without repetition. */
  function Rule(executors: seq<string>): seq<string> {
    Deduped(SortBy(Itself, executors))
  }

  lemma RuleAscends(executors: seq<string>)
    ensures Ascending(Rule(executors))
    ensures forall x :: x in Rule(executors) <==> x in executors
    ensures executors != [] ==> Rule(executors) != []
  {
    SortOrdered(Itself, executors);
    SortMembers(Itself, executors);
    DedupedAscends(SortBy(Itself, executors));
    forall x ensures x in Rule(executors) <==> x in executors {
      DedupedElements(SortBy(Itself, executors), x);
      SortElements(Itself, executors, x);
    }
    if executors != [] { assert executors[0] in Rule(executors); }
  }

  /** Canonicalising twice is canonicalising once. */
  lemma RuleIdempotent(executors: seq<string>)
    ensures Rule(Rule(executors)) == Rule(executors)
  {
    var r := Rule(executors);
    RuleAscends(executors);
    assert Keys(Itself, r) == r;
    SortOfAscending(Itself, r);
    DedupedOfAscending(r);
  }

  predicate RuleOk(action: string, executors: seq<string>) {
    action != "" && executors != [] && "" !in executors
  }

  predicate WellFormed(p: AuthorityPolicy) {
    && p.id != "" && p.policyRef != "" && (p.protocol == "" || p.protocol == AuthorityPolicyProtocol)
    && p.executorsByAction != map[]
    && forall a | a in p.executorsByAction :: RuleOk(a, p.executorsByAction[a])
  }

  lemma RulesOkIff(rules: Rules)
    ensures (forall a | a in rules :: RuleOk(a, rules[a])) <==>
            forall a | a in rules :: a != "" && |rules[a]| > 0 && "" !in rules[a]
    ensures rules != map[] <==> |rules| > 0
  {
  }

  function CanonicalRules(rules: Rules): Rules {
    map a | a in rules :: Rule(rules[a])
  }

  /** The policy whose JSON is hashed. */
  function Canonical(p: AuthorityPolicy): Option<AuthorityPolicy> {
    if WellFormed(p)
    then Some(AuthorityPolicy(AuthorityPolicyProtocol, p.id, p.policyRef, CanonicalRules(p.executorsByAction)))
    else None
  }

  /** One action's list: sort a copy, keep the first of equal neighbours, refuse an empty name. */
  method CanonicalRule(executors: seq<string>) returns (r: Option<seq<string>>)
    ensures r == if "" in executors then None else Some(Rule(executors))
  {
    var ordered, unique := SortBy(Itself, executors), [];
    SortElements(Itself, executors, "");
    for i := 0 to |ordered|
      invariant unique == Deduped(ordered[..i]) && "" !in ordered[..i]
    {
      assert ordered[..i + 1][..i] == ordered[..i];
      if ordered[i] == "" { return None; }
      if |unique| == 0 || unique[|unique| - 1] != ordered[i] { unique := unique + [ordered[i]]; }
    }
    assert ordered[..|ordered|] == ordered;
    return Some(unique);
  }

  /** CanonicalJSON's loop over the rules, in no particular order. */
  method Canonicalise(p: AuthorityPolicy) returns (r: Option<AuthorityPolicy>)
    ensures r.Some? <==>
              && p.id != "" && p.policyRef != "" && p.protocol in {"", AuthorityPolicyProtocol}
              && |p.executorsByAction| > 0
              && forall a | a in p.executorsByAction ::
                   a != "" && |p.executorsByAction[a]| > 0 && "" !in p.executorsByAction[a]
    ensures r == Canonical(p)
  {
    RulesOkIff(p.executorsByAction);
    if p.id == "" || p.policyRef == "" { return None; }
    if p.protocol != "" && p.protocol != AuthorityPolicyProtocol { return None; }
    if p.executorsByAction == map[] { return None; }
    var rules: Rules, todo := map[], p.executorsByAction.Keys;
    while todo != {}
      invariant todo <= p.executorsByAction.Keys
      invariant forall a | a in p.executorsByAction && a !in todo :: RuleOk(a, p.executorsByAction[a])
      invariant rules == map a | a in p.executorsByAction && a !in todo :: Rule(p.executorsByAction[a])
    {
      var action :| action in todo;
      if action == "" || |p.executorsByAction[action]| == 0 { return None; }
      var rule := CanonicalRule(p.executorsByAction[action]);
      if rule.None? { return None; }
      rules, todo := rules[action := rule.value], todo - {action};
    }
    assert rules == CanonicalRules(p.executorsByAction);
    return Some(AuthorityPolicy(AuthorityPolicyProtocol, p.id, p.policyRef, rules));
  }

  /** The two policies authorise the same executors for the same actions. */
  ghost predicate SameAuthority(p: AuthorityPolicy, q: AuthorityPolicy) {
    forall a, e :: Authorises(p, a, e) <==> Authorises(q, a, e)
  }

  /** The canonical form authorises exactly whom the policy does, and is its own canonical form. */
  lemma CanonicalKeepsAuthority(p: AuthorityPolicy)
    requires Canonical(p).Some?
    ensures Canonical(Canonical(p).value) == Canonical(p)
    ensures SameAuthority(p, Canonical(p).value)
  {
    var c := Canonical(p).value;
    forall a | a in p.executorsByAction
      ensures Ascending(c.executorsByAction[a])
              && (forall x :: x in c.executorsByAction[a] <==> x in p.executorsByAction[a])
      ensures Rule(c.executorsByAction[a]) == c.executorsByAction[a] && RuleOk(a, c.executorsByAction[a])
    {
      assert RuleOk(a, p.executorsByAction[a]);
      RuleAscends(p.executorsByAction[a]);
      RuleIdempotent(p.executorsByAction[a]);
    }
    assert c.executorsByAction.Keys == p.executorsByAction.Keys;
    assert Canonical(c).value.executorsByAction == c.executorsByAction;
  }

  /**
    Policies with the same name that authorise the same executors have one canonical
    form, hence one hash; and only those do.
   */
  lemma CanonicalIffSameAuthority(p: AuthorityPolicy, q: AuthorityPolicy)
    requires Canonical(p).Some? && Canonical(q).Some?
    ensures Canonical(p) == Canonical(q) <==>
              p.id == q.id && p.policyRef == q.policyRef && SameAuthority(p, q)
  {
    if Canonical(p) == Canonical(q) {
      CanonicalKeepsAuthority(p);
      CanonicalKeepsAuthority(q);
      SharedThird(p, q, Canonical(p).value);
    }
    if p.id == q.id && SameAuthority(p, q) {
      SameRules(p, q);
      SameRules(q, p);
      assert CanonicalRules(p.executorsByAction) == CanonicalRules(q.executorsByAction);
    }
  }

  lemma SharedThird(p: AuthorityPolicy, q: AuthorityPolicy, c: AuthorityPolicy)
    requires SameAuthority(p, c) && SameAuthority(q, c)
    ensures SameAuthority(p, q)
  {
  }

  lemma SameRules(p: AuthorityPolicy, q: AuthorityPolicy)
    requires Canonical(p).Some? && Canonical(q).Some? && p.id == q.id && SameAuthority(p, q)
    ensures forall a | a in p.executorsByAction ::
              a in q.executorsByAction && Rule(p.executorsByAction[a]) == Rule(q.executorsByAction[a])
  {
    forall a | a in p.executorsByAction
      ensures a in q.executorsByAction && Rule(p.executorsByAction[a]) == Rule(q.executorsByAction[a])
    {
      assert RuleOk(a, p.executorsByAction[a]);
      var e := p.executorsByAction[a][0];
      assert Authorises(p, a, e) && Authorises(q, a, e);
      assert RuleOk(a, q.executorsByAction[a]);
      RuleAscends(p.executorsByAction[a]);
      RuleAscends(q.executorsByAction[a]);
      forall x ensures x in Rule(p.executorsByAction[a]) <==> x in Rule(q.executorsByAction[a]) {
        assert Authorises(p, a, x) <==> Authorises(q, a, x);
      }
      AscendingUnique(Rule(p.executorsByAction[a]), Rule(q.executorsByAction[a]));
    }
  }

  // ---- authority proofs ----

  function SnapshotHash(text: PolicyText, p: AuthorityPolicy): Option<Digest<string>> {
    match Canonical(p)
    case None => None
    case Some(c) => Some(Sha256(text(c)))
  }

  /** AuthorizeProof: the exact check, then the snapshot of the policy that made it. */
  function Prove(text: PolicyText, p: AuthorityPolicy, actionKind: string, executorId: string): Option<AuthorityProof> {
    if !Authorises(p, actionKind, executorId) || SnapshotHash(text, p).None? then None
    else Some(AuthorityProof(p.id, p.policyRef, SnapshotHash(text, p).value, actionKind, executorId))
  }

  /**
    A proof is issued exactly when the policy is complete and lists the executor for
    the action; it names that policy, action and executor.
   */
  lemma ProvesIffListed(text: PolicyText, p: AuthorityPolicy, actionKind: string, executorId: string)
    ensures Prove(text, p, actionKind, executorId).Some? <==>
              && p.id != "" && p.policyRef != "" && p.protocol in {"", AuthorityPolicyProtocol}
              && (forall a | a in p.executorsByAction ::
                    a != "" && |p.executorsByAction[a]| > 0 && "" !in p.executorsByAction[a])
              && actionKind in p.executorsByAction && executorId in p.executorsByAction[actionKind]
    ensures Prove(text, p, actionKind, executorId).Some? ==>
              && WellFormed(p)
              && Prove(text, p, actionKind, executorId) ==
                 Some(AuthorityProof(p.id, p.policyRef, Sha256(text(Canonical(p).value)), actionKind, executorId))
  {
    forall a | a in p.executorsByAction
      ensures RuleOk(a, p.executorsByAction[a]) <==>
              a != "" && |p.executorsByAction[a]| > 0 && "" !in p.executorsByAction[a] {}
  }

  /** The canonical policy proves exactly what the policy proves. */
  lemma CanonicalProvesTheSame(text: PolicyText, p: AuthorityPolicy, actionKind: string, executorId: string)
    requires Canonical(p).Some?
    ensures Prove(text, Canonical(p).value, actionKind, executorId) == Prove(text, p, actionKind, executorId)
  {
    CanonicalKeepsAuthority(p);
  }

  /** A policy hash fixes who was authorised, for any text that distinguishes policies. */
  lemma PolicyHashFixesAuthority(text: PolicyText, p: AuthorityPolicy, q: AuthorityPolicy)
    requires forall a, b | text(a) == text(b) :: a == b
    requires SnapshotHash(text, p).Some? && SnapshotHash(text, p) == SnapshotHash(text, q)
    ensures p.id == q.id && p.policyRef == q.policyRef && SameAuthority(p, q)
  {
    assert text(Canonical(p).value) == text(Canonical(q).value);
    CanonicalIffSameAuthority(p, q);
  }
}
