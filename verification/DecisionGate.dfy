/**
  The policy gate of the decision plane (ApplyDecision in internal/decisionplane/decision.go)
  and the deterministic provider (internal/decisionplane/static_provider.go).
 */
module DecisionGate {
  import opened Common
  import opened Ordering
  import opened Ranking
  import opened DecisionPlane
  import Metro

  predicate PolicyOk(p: GatePolicy) {
    0.0 < p.autoRouteConfidence <= 1.0 && 0.0 <= p.minTopMargin <= 1.0
  }

  /** choiceForID: the first choice with the id. */
  function ChoiceFor(cs: seq<Choice>, id: string): Option<Choice> {
    if cs == [] then None else if cs[0].id == id then Some(cs[0]) else ChoiceFor(cs[1..], id)
  }

  lemma {:induction false} ChoiceForFinds(cs: seq<Choice>, c: Choice)
    requires DistinctIds(cs) && c in cs
    ensures ChoiceFor(cs, c.id) == Some(c)
  {
    if cs[0] != c {
      var i :| 0 <= i < |cs| && cs[i] == c;
      assert cs[1..][i - 1] == c && cs[0].id != cs[i].id;
      ChoiceForFinds(cs[1..], c);
    }
  }

  // ---- the route ----

  function TargetOf(c: Metro.Candidate): string { c.target }

  function ScoreOf(c: Metro.Candidate): real { c.score }

  /** One candidate for each probability, in the order given; None if some lookup failed. */
  function Candidates(cs: seq<Choice>, ps: seq<Probability>): Option<seq<Metro.Candidate>> {
    if ps == [] then Some([])
    else
      var p := ps[|ps| - 1];
      match (Candidates(cs, ps[..|ps| - 1]), ChoiceFor(cs, p.choiceId))
      case (Some(init), Some(c)) => Some(init + [Metro.Candidate(c.target, p.probability)])
      case _ => None
  }

  /**
    Known entries never fail to find their choice, and each candidate carries the target
    and probability of its entry.
   */
  lemma {:induction false} CandidatesFound(cs: seq<Choice>, ps: seq<Probability>)
    requires DistinctIds(cs) && forall i | 0 <= i < |ps| :: Known(cs, ps[i].choiceId)
    ensures Candidates(cs, ps).Some? && |Candidates(cs, ps).value| == |ps|
    ensures forall i, c | 0 <= i < |ps| && c in cs && c.id == ps[i].choiceId ::
              Candidates(cs, ps).value[i] == Metro.Candidate(c.target, ps[i].probability)
  {
    if ps != [] {
      var init, last := ps[..|ps| - 1], ps[|ps| - 1];
      assert forall i | 0 <= i < |init| :: init[i] == ps[i];
      CandidatesFound(cs, init);
      assert Known(cs, ps[|ps| - 1].choiceId);
      var k :| k in cs && k.id == last.choiceId;
      ChoiceForFinds(cs, k);
      forall i, c | 0 <= i < |ps| && c in cs && c.id == ps[i].choiceId
        ensures Candidates(cs, ps).value[i] == Metro.Candidate(c.target, ps[i].probability)
      {
        if i < |init| { assert init[i].choiceId == c.id; } else { SameIdSameChoice(cs, c, k); }
      }
    }
  }

  /** The route a decision leads to. */
  function RouteFor(packet: Metro.Packet, d: Decision, target: string, candidates: seq<Metro.Candidate>,
                    policyRef: string, now: string): Metro.Route
  {
    Metro.Route(
      Metro.RouteProtocol, "route-" + packet.actionId, packet.actionId, "fast-decision-plane:" + d.providerId,
      "system-one", target, Rank(ScoreOf, TargetOf, candidates), d.confidence,
      if policyRef == "" then "policy://decision-plane/v0.6/custom" else policyRef, now)
  }

  /** The gate's answer to a valid decision, from the selected probability and the runner-up. */
  function Verdict(packet: Metro.Packet, request: Request, d: Decision, policy: GatePolicy,
                   now: string): Option<GateResult> {
    var p, margin := ProbabilityOf(d.probabilities, d.selectedChoiceId), TopMargin(d);
    if packet.constraints.sideEffect && policy.requireApprovalForSideEffects then
      Some(GateResult(RequireApproval, "side_effect_requires_approval", d.confidence, margin, None))
    else if d.confidence < policy.autoRouteConfidence || p < policy.autoRouteConfidence then
      Some(GateResult(EscalateSystem2, "confidence_below_auto_route_threshold", d.confidence, margin, None))
    else if margin < policy.minTopMargin then
      Some(GateResult(EscalateSystem2, "top_choice_margin_too_small", d.confidence, margin, None))
    else
      match (ChoiceFor(request.choices, d.selectedChoiceId), Candidates(request.choices, d.probabilities))
      case (Some(c), Some(candidates)) =>
        var route := RouteFor(packet, d, c.target, candidates, policy.policyRef, now);
        Some(GateResult(AutoRoute, "bounded_high_confidence_choice", d.confidence, margin, Some(route)))
      case _ => None
  }

  function TopMargin(d: Decision): real {
    ProbabilityOf(d.probabilities, d.selectedChoiceId) - RunnerUp(d.probabilities, d.selectedChoiceId)
  }

  /** After validation no lookup fails: the gate always has an answer. */
  lemma VerdictDefined(packet: Metro.Packet, request: Request, d: Decision, policy: GatePolicy, now: string)
    requires ValidDecision(packet, request, d)
    ensures Verdict(packet, request, d, policy, now).Some?
    ensures exists c ::
              && c in request.choices && ChoiceFor(request.choices, d.selectedChoiceId) == Some(c)
              && c.id == d.selectedChoiceId
              && c.target in packet.allowedTargets
    ensures 0.0 <= ProbabilityOf(d.probabilities, d.selectedChoiceId) <= 1.0
    ensures Candidates(request.choices, d.probabilities).Some?
  {
    var cs, ps := request.choices, d.probabilities;
    CandidatesFound(cs, ps);
    var c :| c in cs && c.id == d.selectedChoiceId && c.target in packet.allowedTargets;
    ChoiceForFinds(cs, c);
    var i :| 0 <= i < |ps| && ps[i].choiceId == d.selectedChoiceId;
    ProbabilityAt(ps, i);
  }

  /** The margin is the lead of the selected probability over the largest other one, or over 0 when that is larger. */
  lemma TopMarginIs(ps: seq<Probability>, d: Decision)
    requires ps == d.probabilities && NonNegative(ps)
    ensures var p := ProbabilityOf(ps, d.selectedChoiceId);
            && TopMargin(d) <= p
            && (forall i | 0 <= i < |ps| && ps[i].choiceId != d.selectedChoiceId ::
                  TopMargin(d) <= p - ps[i].probability)
            && (TopMargin(d) == p || exists i :: 0 <= i < |ps| && ps[i].choiceId != d.selectedChoiceId
                                                 && TopMargin(d) == p - ps[i].probability)
  {
    RunnerUpIs(ps, d.selectedChoiceId);
  }

  /**
    The gate, case by case: a side effect under a policy that asks for approval gets
    approval; otherwise a low confidence, probability or margin escalates; the rest is routed.
   */
  lemma VerdictCases(packet: Metro.Packet, request: Request, d: Decision, policy: GatePolicy, now: string)
    requires ValidDecision(packet, request, d)
    ensures Verdict(packet, request, d, policy, now).Some?
    ensures var g := Verdict(packet, request, d, policy, now).value;
            var approval := packet.constraints.sideEffect && policy.requireApprovalForSideEffects;
            var doubtful := || d.confidence < policy.autoRouteConfidence
                            || ProbabilityOf(d.probabilities, d.selectedChoiceId) < policy.autoRouteConfidence
                            || TopMargin(d) < policy.minTopMargin;
            && (approval ==> g.disposition == RequireApproval)
            && (!approval && doubtful ==> g.disposition == EscalateSystem2)
            && (!approval && !doubtful ==> g.disposition == AutoRoute)
            && (g.route.Some? <==> g.disposition == AutoRoute)
            && g.confidence == d.confidence && g.topMargin == TopMargin(d)
  {
    VerdictDefined(packet, request, d, policy, now);
    hide ValidDecision, ProbabilityOf, TopMargin, Candidates, ChoiceFor, RouteFor;
  }

  /** selectedStats: one pass for the selected probability and the runner-up. */
  method SelectedStats(request: Request, d: Decision) returns (r: Option<(Choice, real, real)>)
    ensures r == match ChoiceFor(request.choices, d.selectedChoiceId)
                 case None => None
                 case Some(c) =>
                   if ProbabilityOf(d.probabilities, d.selectedChoiceId) < 0.0 then None
                   else Some((c, ProbabilityOf(d.probabilities, d.selectedChoiceId),
                              RunnerUp(d.probabilities, d.selectedChoiceId)))
  {
    var selected := ChoiceFor(request.choices, d.selectedChoiceId);
    if selected.None? { return None; }
    var ps, selectedProbability, runnerUp := d.probabilities, -1.0, 0.0;
    for i := 0 to |ps|
      invariant selectedProbability == ProbabilityOf(ps[..i], d.selectedChoiceId)
                && runnerUp == RunnerUp(ps[..i], d.selectedChoiceId)
    {
      assert ps[..i + 1][..i] == ps[..i];
      if ps[i].choiceId == d.selectedChoiceId {
        selectedProbability := ps[i].probability;
      } else if ps[i].probability > runnerUp {
        runnerUp := ps[i].probability;
      }
    }
    assert ps[..|ps|] == ps;
    if selectedProbability < 0.0 { return None; }
    return Some((selected.value, selectedProbability, runnerUp));
  }

  /** The loop that turns probabilities into candidates. */
  method BuildCandidates(cs: seq<Choice>, ps: seq<Probability>) returns (r: Option<seq<Metro.Candidate>>)
    ensures r == Candidates(cs, ps)
  {
    var candidates: seq<Metro.Candidate> := [];
    for i := 0 to |ps|
      invariant Candidates(cs, ps[..i]) == Some(candidates)
    {
      assert ps[..i + 1][..i] == ps[..i];
      var choice := ChoiceFor(cs, ps[i].choiceId);
      if choice.None? {
        CandidatesStop(cs, ps, i);
        return None;
      }
      candidates := candidates + [Metro.Candidate(choice.value.target, ps[i].probability)];
    }
    assert ps[..|ps|] == ps;
    return Some(candidates);
  }

  lemma {:induction false} CandidatesStop(cs: seq<Choice>, ps: seq<Probability>, i: nat)
    requires i < |ps| && ChoiceFor(cs, ps[i].choiceId).None?
    ensures Candidates(cs, ps).None?
  {
    if i < |ps| - 1 { CandidatesStop(cs, ps[..|ps| - 1], i); }
  }

  lemma LookupsSucceed(packet: Metro.Packet, request: Request, d: Decision)
    requires ValidDecision(packet, request, d)
    ensures ChoiceFor(request.choices, d.selectedChoiceId).Some?
    ensures ProbabilityOf(d.probabilities, d.selectedChoiceId) >= 0.0
    ensures Candidates(request.choices, d.probabilities).Some?
  {
    hide ValidDecision, Candidates, ProbabilityOf;
    VerdictDefined(packet, request, d, DefaultGatePolicy, "");
  }

  /** ApplyDecision: an answer exactly for a valid decision under a sensible policy. */
  method ApplyDecision(packet: Metro.Packet, request: Request, d: Decision, policy: GatePolicy, now: string)
    returns (r: Result<GateResult, DecisionError>)
    ensures r.Ok? <==> ValidDecision(packet, request, d) && PolicyOk(policy)
    ensures r.Ok? ==> Verdict(packet, request, d, policy, now) == Some(r.value)
  {
    var valid := ValidateDecision(packet, request, d);
    if valid.Fail? { return Err(valid.error); }
    LookupsSucceed(packet, request, d);
    hide ValidDecision, Candidates, ChoiceFor, ProbabilityOf, RunnerUp, Distribution, SelectsTop, BoundTo, Rank;
    if policy.autoRouteConfidence <= 0.0 || policy.autoRouteConfidence > 1.0 { return Err(BadThreshold); }
    if policy.minTopMargin < 0.0 || policy.minTopMargin > 1.0 { return Err(BadMargin); }
    var policyRef := if policy.policyRef == "" then "policy://decision-plane/v0.6/custom" else policy.policyRef;
    var stats := SelectedStats(request, d);
    if stats.None? { return Err(LookupFailed); }
    var (selected, p, runnerUp) := stats.value;
    var margin := p - runnerUp;
    if packet.constraints.sideEffect && policy.requireApprovalForSideEffects {
      return Ok(GateResult(RequireApproval, "side_effect_requires_approval", d.confidence, margin, None));
    }
    if d.confidence < policy.autoRouteConfidence || p < policy.autoRouteConfidence {
      return Ok(GateResult(EscalateSystem2, "confidence_below_auto_route_threshold", d.confidence, margin, None));
    }
    if margin < policy.minTopMargin {
      return Ok(GateResult(EscalateSystem2, "top_choice_margin_too_small", d.confidence, margin, None));
    }
    var candidates := BuildCandidates(request.choices, d.probabilities);
    match candidates
    case None => return Err(LookupFailed);
    case Some(cs) =>
      var route := RouteFor(packet, d, selected.target, cs, policyRef, now);
      return Ok(GateResult(AutoRoute, "bounded_high_confidence_choice", d.confidence, margin, Some(route)));
  }

  lemma RoutedVerdict(packet: Metro.Packet, request: Request, d: Decision, policy: GatePolicy, now: string,
                      g: GateResult, route: Metro.Route)
    requires Verdict(packet, request, d, policy, now) == Some(g) && g.route == Some(route)
    ensures ChoiceFor(request.choices, d.selectedChoiceId).Some? && Candidates(request.choices, d.probabilities).Some?
    ensures route == RouteFor(packet, d, ChoiceFor(request.choices, d.selectedChoiceId).value.target,
                              Candidates(request.choices, d.probabilities).value, policy.policyRef, now)
  {
  }

  lemma CandidateOfChoice(cs: seq<Choice>, ps: seq<Probability>, all: seq<Metro.Candidate>, c: Choice)
    requires Distribution(cs, ps) && Candidates(cs, ps) == Some(all) && c in cs
    ensures Metro.Candidate(c.target, ProbabilityOf(ps, c.id)) in all
  {
    CandidatesFound(cs, ps);
    Pigeonhole(cs, ps);
    var k := Keys(ChoiceIdOf, ps);
    var i :| 0 <= i < |k| && k[i] == c.id;
    ProbabilityAt(ps, i);
    assert all[i] == Metro.Candidate(c.target, ps[i].probability);
  }

  /**
    What an auto-route says: the selected choice's target, allowed by the packet;
    each choice a candidate with its own probability; best candidate first.
   */
  lemma AutoRouteIsFaithful(packet: Metro.Packet, request: Request, d: Decision, policy: GatePolicy, now: string,
                            g: GateResult, route: Metro.Route)
    requires ValidDecision(packet, request, d) && Verdict(packet, request, d, policy, now) == Some(g)
             && g.route == Some(route)
    ensures route.selectedTarget in packet.allowedTargets && route.actionId == packet.actionId
    ensures route.protocol == Metro.RouteProtocol && route.routeId == "route-" + packet.actionId
    ensures route.routerId == "fast-decision-plane:" + d.providerId && route.decisionMode == "system-one"
    ensures route.confidence == d.confidence && route.decidedAt == now
    ensures policy.policyRef != "" ==> route.policyRef == policy.policyRef
    ensures policy.policyRef == "" ==> route.policyRef == "policy://decision-plane/v0.6/custom"
    ensures Metro.Candidate(route.selectedTarget,
                            ProbabilityOf(d.probabilities, d.selectedChoiceId)) in route.candidates
    ensures |route.candidates| == |request.choices| && Ranked(ScoreOf, TargetOf, route.candidates)
    ensures forall c | c in request.choices ::
              Metro.Candidate(c.target, ProbabilityOf(d.probabilities, c.id)) in route.candidates
  {
    var cs, ps := request.choices, d.probabilities;
    VerdictDefined(packet, request, d, policy, now);
    RoutedVerdict(packet, request, d, policy, now, g, route);
    CandidatesFound(cs, ps);
    var selected :| selected in cs && ChoiceFor(cs, d.selectedChoiceId) == Some(selected)
      && selected.id == d.selectedChoiceId
                    && selected.target in packet.allowedTargets;
    var all := Candidates(cs, ps).value;
    hide Verdict, SelectsTop, Candidates, ChoiceFor;
    RankMembers(ScoreOf, TargetOf, all);
    RankRanked(ScoreOf, TargetOf, all);
    assert forall x :: x in all ==> x in multiset(all);
    assert forall x :: x in multiset(route.candidates) ==> x in route.candidates;
    forall c | c in cs ensures Metro.Candidate(c.target, ProbabilityOf(ps, c.id)) in route.candidates {
      CandidateOfChoice(cs, ps, all, c);
    }
  }

  // ---- the margin bound ----

  /** With the selected probability at least `c`, the margin is at least 2c - 1, up to the tolerance. */
  lemma MarginBound(packet: Metro.Packet, request: Request, d: Decision, c: real)
    requires ValidDecision(packet, request, d) && c <= 1.0 && ProbabilityOf(d.probabilities, d.selectedChoiceId) >= c
    ensures TopMargin(d) >= 2.0 * c - 1.0 - Tolerance
  {
    var ps, id := d.probabilities, d.selectedChoiceId;
    RunnerUpIs(ps, id);
    var i :| 0 <= i < |ps| && ps[i].choiceId == id;
    ProbabilityAt(ps, i);
    if RunnerUp(ps, id) != 0.0 {
      var j :| 0 <= j < |ps| && ps[j].choiceId != id && ps[j].probability == RunnerUp(ps, id);
      if i < j { PairWithinTotal(ps, i, j); } else { PairWithinTotal(ps, j, i); }
    }
  }

  /** The policy's confidence threshold already implies its margin, up to the tolerance. */
  predicate MarginImplied(policy: GatePolicy) {
    policy.minTopMargin <= 2.0 * policy.autoRouteConfidence - 1.0 - Tolerance
  }

  /**
    A policy whose threshold implies its margin never reports a small margin; the
    default policy is one.
   */
  lemma MarginNeverTooSmall(packet: Metro.Packet, request: Request, d: Decision, policy: GatePolicy, now: string)
    requires ValidDecision(packet, request, d) && PolicyOk(policy) && MarginImplied(policy)
    ensures Verdict(packet, request, d, policy, now).Some?
    ensures Verdict(packet, request, d, policy, now).value.reasonCode != "top_choice_margin_too_small"
    ensures MarginImplied(DefaultGatePolicy)
  {
    VerdictDefined(packet, request, d, policy, now);
    if ProbabilityOf(d.probabilities, d.selectedChoiceId) >= policy.autoRouteConfidence {
      MarginBound(packet, request, d, policy.autoRouteConfidence);
    }
  }

  /** A packet that may go to either of two targets, and the request that asks which. */
  const TwoWayPacket := Metro.Packet(Metro.PacketProtocol, "a", "", "", "", Metro.Action("", map[]), ["x", "y"], [],
                                     Metro.Constraints(0, false), "")
  const TwoChoices := [Choice("1", "x", ""), Choice("2", "y", "")]
  const TwoWayRequest := BoundRequest(TwoWayPacket, "q", None, TwoChoices, "")

  /** The first choice with probability `p`, the second with as much as the tolerance allows. */
  function Leaning(p: real): seq<Probability> {
    [Probability("1", p), Probability("2", 1.0 - p + Tolerance)]
  }

  function CloseCall(p: real): Decision {
    Decision(ResultProtocol, "q", "a", "provider", TwoWayRequest.packetHash, TwoWayRequest.stateHash,
             TwoWayRequest.choicesHash, "1", Leaning(p), 1.0, "")
  }

  lemma OneEntry(p: Probability)
    ensures Total([p]) == p.probability && RunnerUp([p], p.choiceId) == 0.0
  {
    assert [p][..0] == [];
  }

  lemma LeaningStats(p: real)
    requires 0.5 <= p <= 1.0
    ensures Total(Leaning(p)) == 1.0 + Tolerance && ProbabilityOf(Leaning(p), "1") == p
    ensures RunnerUp(Leaning(p), "1") == 1.0 - p + Tolerance
  {
    var ps := Leaning(p);
    OneEntry(ps[0]);
    assert ps[..1] == [ps[0]];
    assert ps[0].choiceId != ps[1].choiceId;
    ProbabilityAt(ps, 0);
  }

  lemma CloseCallValid(p: real)
    requires 0.5 <= p <= 1.0
    ensures Askable(TwoWayPacket, "q", TwoChoices) && ValidDecision(TwoWayPacket, TwoWayRequest, CloseCall(p))
  {
    var ps := Leaning(p);
    LeaningStats(p);
    assert TwoChoices[0] in TwoChoices && TwoChoices[1] in TwoChoices;
    assert Known(TwoChoices, ps[0].choiceId) && Known(TwoChoices, ps[1].choiceId);
    assert Distribution(TwoChoices, ps);
    assert ps[0].choiceId == "1" && Tops(ps, 0);
    assert SelectsTop(TwoWayPacket, TwoChoices, ps, "1");
  }

  /**
    The other half: under every other policy some valid decision on an accepted
    request is stopped by its margin alone.
   */
  lemma MarginCanBeTooSmall(policy: GatePolicy, now: string)
    returns (packet: Metro.Packet, cs: seq<Choice>, request: Request, d: Decision)
    requires PolicyOk(policy) && !MarginImplied(policy)
    ensures Askable(packet, request.requestId, cs) && request == BoundRequest(packet, request.requestId, None, cs, "")
    ensures ValidDecision(packet, request, d) && Verdict(packet, request, d, policy, now).Some?
    ensures Verdict(packet, request, d, policy, now).value.reasonCode == "top_choice_margin_too_small"
  {
    var p := if policy.autoRouteConfidence < 0.5 then 0.5 else policy.autoRouteConfidence;
    packet, cs, request, d := TwoWayPacket, TwoChoices, TwoWayRequest, CloseCall(p);
    CloseCallValid(p);
    LeaningStats(p);
    VerdictDefined(packet, request, d, policy, now);
    assert TopMargin(d) == 2.0 * p - 1.0 - Tolerance < policy.minTopMargin;
  }

  // ---- the static provider ----

  type Scores = map<string, real>

  function ScoreFor(scores: Scores, id: string): real {
    if id in scores then scores[id] else 0.0
  }

  function RawScores(scores: Scores, cs: seq<Choice>): seq<Probability> {
    seq(|cs|, i requires 0 <= i < |cs| => Probability(cs[i].id, ScoreFor(scores, cs[i].id)))
  }

  function Scaled(ps: seq<Probability>, total: real): seq<Probability>
    requires total != 0.0
  {
    seq(|ps|, i requires 0 <= i < |ps| => Probability(ps[i].choiceId, ps[i].probability / total))
  }

  function WeightOf(p: Probability): real { p.probability }

  /** When the provider decides, and what. */
  ghost predicate Decidable(id: string, scores: Scores, request: Request) {
    && id != "" && request.choices != [] && NonNegative(RawScores(scores, request.choices))
    && Total(RawScores(scores, request.choices)) > 0.0
  }

  lemma {:induction false} PositiveIff(ps: seq<Probability>)
    requires NonNegative(ps)
    ensures Total(ps) >= 0.0
    ensures Total(ps) > 0.0 <==> exists i :: 0 <= i < |ps| && ps[i].probability > 0.0
  {
    if ps != [] {
      var init := ps[..|ps| - 1];
      assert NonNegative(init);
      PositiveIff(init);
      if i :| 0 <= i < |ps| && ps[i].probability > 0.0 {
        if i < |init| { assert init[i].probability > 0.0; }
      }
      if j :| 0 <= j < |init| && init[j].probability > 0.0 { assert ps[j].probability > 0.0; }
    }
  }

  /** The provider decides exactly when it has an id, no choice scores below zero, and some choice above. */
  lemma DecidableIff(id: string, scores: Scores, request: Request)
    ensures Decidable(id, scores, request) <==>
              && id != "" && (forall c | c in request.choices && c.id in scores :: scores[c.id] >= 0.0)
              && (exists c :: c in request.choices && c.id in scores && scores[c.id] > 0.0)
  {
    var cs, raw := request.choices, RawScores(scores, request.choices);
    hide Total;
    assert forall i | 0 <= i < |cs| :: raw[i].probability == ScoreFor(scores, cs[i].id);
    if NonNegative(raw) {
      PositiveIff(raw);
      forall c | c in cs && c.id in scores ensures scores[c.id] >= 0.0 {
        var i :| 0 <= i < |cs| && cs[i] == c;
        assert raw[i].probability >= 0.0;
      }
      if c :| c in cs && c.id in scores && scores[c.id] > 0.0 {
        var i :| 0 <= i < |cs| && cs[i] == c;
        assert raw[i].probability > 0.0;
      }
      if i :| 0 <= i < |raw| && raw[i].probability > 0.0 { assert cs[i] in cs && scores[cs[i].id] > 0.0; }
    } else {
      var i :| 0 <= i < |raw| && raw[i].probability < 0.0;
      assert cs[i] in cs;
    }
  }

  ghost predicate DecidedBy(id: string, scores: Scores, request: Request, d: Decision)
    requires Decidable(id, scores, request)
  {
    var ps := Scaled(RawScores(scores, request.choices), Total(RawScores(scores, request.choices)));
    var ranked := Rank(WeightOf, ChoiceIdOf, ps);
    && ranked != []
    && d == Decision(ResultProtocol, request.requestId, request.actionId, id, request.packetHash, request.stateHash,
                     request.choicesHash, ranked[0].choiceId, ps, ranked[0].probability, d.decidedAt)
  }

  /** Each weight is divided by the total. */
  method DivideAll(raw: seq<Probability>, total: real) returns (ps: seq<Probability>)
    requires total != 0.0
    ensures ps == Scaled(raw, total)
  {
    ps := raw;
    for i := 0 to |ps|
      invariant |ps| == |raw|
      invariant forall j | 0 <= j < i :: ps[j] == Scaled(raw, total)[j]
      invariant forall j | i <= j < |raw| :: ps[j] == raw[j]
    {
      ps := ps[i := ps[i].(probability := ps[i].probability / total)];
    }
  }

  /** The first loop: every score looked up, added and kept; a negative one refuses the request. */
  method WeighChoices(scores: Scores, cs: seq<Choice>) returns (r: Option<(seq<Probability>, real)>)
    ensures var raw := RawScores(scores, cs);
            r == if NonNegative(raw) then Some((raw, Total(raw))) else None
  {
    var total, probabilities: seq<Probability> := 0.0, [];
    ghost var raw := RawScores(scores, cs);
    assert Total([]) == 0.0;
    hide Total;
    for i := 0 to |cs|
      invariant |probabilities| == i && total == Total(probabilities)
      invariant forall j | 0 <= j < i :: probabilities[j] == raw[j] && 0.0 <= raw[j].probability
    {
      var score := ScoreFor(scores, cs[i].id);
      assert raw[i] == Probability(cs[i].id, score);
      if score < 0.0 { return None; }
      OneMoreWeight(probabilities, Probability(cs[i].id, score));
      total := total + score;
      probabilities := probabilities + [Probability(cs[i].id, score)];
    }
    assert probabilities == raw;
    return Some((probabilities, total));
  }

  lemma OneMoreWeight(ps: seq<Probability>, p: Probability)
    ensures Total(ps + [p]) == Total(ps) + p.probability
  {
    assert (ps + [p])[..|ps|] == ps;
  }

  /** StaticProvider.Decide: weights in proportion to the scores, the top one selected with its weight as confidence. */
  method Decide(id: string, scores: Scores, request: Request, now: string) returns (r: Result<Decision, DecisionError>)
    ensures r.Ok? <==>
              && id != "" && (forall c | c in request.choices && c.id in scores :: scores[c.id] >= 0.0)
              && (exists c :: c in request.choices && c.id in scores && scores[c.id] > 0.0)
    ensures r.Ok? <==> Decidable(id, scores, request)
    ensures r.Ok? ==> DecidedBy(id, scores, request, r.value)
  {
    DecidableIff(id, scores, request);
    hide RawScores, Total, Scaled, Rank, NonNegative;
    if id == "" { return Err(ProviderWithoutId); }
    if |request.choices| == 0 { return Err(NoChoices); }
    var weighed := WeighChoices(scores, request.choices);
    if weighed.None? { return Err(NegativeScore); }
    var (raw, total) := weighed.value;
    if total <= 0.0 { return Err(NoMass); }
    var probabilities := DivideAll(raw, total);
    var sorted := Rank(WeightOf, ChoiceIdOf, probabilities);
    RankedSome(scores, request.choices, probabilities);
    return Ok(Decision(ResultProtocol, request.requestId, request.actionId, id, request.packetHash, request.stateHash,
                       request.choicesHash, sorted[0].choiceId, probabilities, sorted[0].probability, now));
  }

  lemma RankedSome(scores: Scores, cs: seq<Choice>, ps: seq<Probability>)
    requires cs != [] && Total(RawScores(scores, cs)) != 0.0
             && ps == Scaled(RawScores(scores, cs), Total(RawScores(scores, cs)))
    ensures Rank(WeightOf, ChoiceIdOf, ps) != []
  {
    RankMembers(WeightOf, ChoiceIdOf, ps);
  }

  lemma Cancel(x: real, y: real, total: real)
    requires total > 0.0 && x * total == y * total
    ensures x == y
  {
    assert (x - y) * total == 0.0;
  }

  lemma SumOfShares(a: real, b: real, total: real)
    requires total > 0.0
    ensures a / total + b / total == (a + b) / total && 0.0 / total == 0.0
  {
    var x, y, z := a / total, b / total, (a + b) / total;
    assert x * total == a && y * total == b && z * total == a + b;
    assert (x + y) * total == x * total + y * total;
    Cancel(x + y, z, total);
    Cancel(0.0 / total, 0.0, total);
  }

  lemma SharesCompare(a: real, b: real, total: real)
    requires total > 0.0
    ensures a <= b <==> a / total <= b / total
  {
    var x, y := a / total, b / total;
    assert x * total == a && y * total == b;
    if x <= y { assert (y - x) * total >= 0.0; } else { assert (x - y) * total > 0.0; }
  }

  lemma ShareAtLeast(a: real, total: real, c: real)
    requires total > 0.0
    ensures a / total >= c <==> a >= c * total
  {
    Cancel((c * total) / total, c, total);
    SharesCompare(c * total, a, total);
  }

  lemma {:induction false} ScaledTotal(ps: seq<Probability>, total: real)
    requires total > 0.0
    ensures Total(Scaled(ps, total)) == Total(ps) / total
  {
    SumOfShares(0.0, 0.0, total);
    var scaled := Scaled(ps, total);
    if ps == [] {
      assert scaled == [];
    } else {
      var init := ps[..|ps| - 1];
      ScaledTotal(init, total);
      assert scaled[..|ps| - 1] == Scaled(init, total);
      SumOfShares(Total(init), ps[|ps| - 1].probability, total);
    }
  }

  lemma WholeShare(total: real)
    requires total > 0.0
    ensures total / total == 1.0 && 0.0 / total == 0.0
  {
    Cancel(total / total, 1.0, total);
    Cancel(0.0 / total, 0.0, total);
  }

  lemma ShareInRange(a: real, total: real)
    requires 0.0 <= a <= total && total > 0.0
    ensures 0.0 <= a / total <= 1.0
  {
    WholeShare(total);
    SharesCompare(0.0, a, total);
    SharesCompare(a, total, total);
  }

  lemma ScaledInRange(ps: seq<Probability>, total: real)
    requires NonNegative(ps) && total == Total(ps) && total > 0.0
    ensures InRange(Scaled(ps, total)) && Total(Scaled(ps, total)) == 1.0
  {
    var scaled := Scaled(ps, total);
    forall i | 0 <= i < |ps| ensures 0.0 <= scaled[i].probability <= 1.0 {
      TotalBounds(ps, i);
      ShareInRange(ps[i].probability, total);
    }
    ScaledTotal(ps, total);
    WholeShare(total);
  }

  /** The provider's selection: the id of an entry of maximal weight, whose weight is the confidence. */
  lemma DecidedSelection(id: string, scores: Scores, request: Request, d: Decision, i: nat)
    requires Decidable(id, scores, request) && DecidedBy(id, scores, request, d) && i < |d.probabilities|
    ensures exists k ::
              && 0 <= k < |d.probabilities|
              && d.probabilities[k] == Probability(d.selectedChoiceId, d.confidence)
    ensures d.probabilities[i].probability <= d.confidence
  {
    var ps := d.probabilities;
    RankTop(WeightOf, ChoiceIdOf, ps, ps[i]);
  }

  /** On a request bound to the packet, the provider's decision always passes validation. */
  lemma ProviderDecisionValid(packet: Metro.Packet, requestId: string, state: Option<Object>, cs: seq<Choice>,
                              at: string, id: string, scores: Scores, request: Request, d: Decision)
    requires Askable(packet, requestId, cs) && request == BoundRequest(packet, requestId, state, cs, at)
    requires Decidable(id, scores, request) && DecidedBy(id, scores, request, d)
    ensures ValidDecision(packet, request, d)
    ensures ProbabilityOf(d.probabilities, d.selectedChoiceId) == d.confidence
  {
    hide ProbabilityOf, Total, Rank, HashChoices;
    var raw, ps := RawScores(scores, cs), d.probabilities;
    ScaledInRange(raw, Total(raw));
    forall i, j | 0 <= i < j < |ps| ensures ps[i].choiceId != ps[j].choiceId { assert cs[i].id != cs[j].id; }
    forall i | 0 <= i < |ps| ensures Known(cs, ps[i].choiceId) { assert cs[i] in cs; }
    DecidedSelection(id, scores, request, d, 0);
    var k :| 0 <= k < |ps| && ps[k] == Probability(d.selectedChoiceId, d.confidence);
    ProbabilityAt(ps, k);
    assert cs[k] in cs && ChoiceOk(packet, cs[k]) && cs[k].id == d.selectedChoiceId;
    forall j | 0 <= j < |ps| ensures ps[j].probability <= ps[k].probability + Tolerance {
      DecidedSelection(id, scores, request, d, j);
    }
    assert SelectsTop(packet, cs, ps, d.selectedChoiceId);
    assert 0.0 <= ps[k].probability <= 1.0;
  }

  /** `p` of the total is the score. */
  predicate IsShare(p: real, total: real, score: real) {
    p * total == score
  }

  lemma ScaledAt(ps: seq<Probability>, total: real, i: nat)
    requires total > 0.0 && i < |ps|
    ensures |Scaled(ps, total)| == |ps| && Scaled(ps, total)[i].choiceId == ps[i].choiceId
    ensures IsShare(Scaled(ps, total)[i].probability, total, ps[i].probability)
  {
    ShareTimesTotal(ps[i].probability, total);
  }

  lemma ShareTimesTotal(score: real, total: real)
    requires total > 0.0
    ensures IsShare(score / total, total, score)
  {
  }

  /** Each choice's probability is its score's share of the total, and no choice scores more than the selected one. */
  lemma ProviderShares(id: string, scores: Scores, request: Request, d: Decision, i: nat)
    requires Decidable(id, scores, request) && DecidedBy(id, scores, request, d) && i < |request.choices|
    ensures var cs, total := request.choices, Total(RawScores(scores, request.choices));
            var score := if cs[i].id in scores then scores[cs[i].id] else 0.0;
            && |d.probabilities| == |cs| && d.probabilities[i].choiceId == cs[i].id
            && IsShare(d.probabilities[i].probability, total, score)
            && d.probabilities[i].probability <= d.confidence
            && exists k :: && 0 <= k < |cs| && d.selectedChoiceId == cs[k].id
                           && d.confidence == d.probabilities[k].probability
  {
    var cs, raw := request.choices, RawScores(scores, request.choices);
    hide Total, Rank, Scaled, IsShare, NonNegative;
    ScaledAt(raw, Total(raw), i);
    DecidedSelection(id, scores, request, d, i);
    var k :| 0 <= k < |d.probabilities| && d.probabilities[k] == Probability(d.selectedChoiceId, d.confidence);
    ScaledAt(raw, Total(raw), k);
    assert d.selectedChoiceId == cs[k].id;
  }

  /** The highest score among the choices. */
  ghost predicate TopScore(scores: Scores, cs: seq<Choice>, top: real) {
    && (exists c :: c in cs && ScoreFor(scores, c.id) == top)
    && (forall c | c in cs :: ScoreFor(scores, c.id) <= top)
  }

  lemma TopShare(id: string, scores: Scores, request: Request, d: Decision, top: real)
    requires Decidable(id, scores, request) && DecidedBy(id, scores, request, d)
             && TopScore(scores, request.choices, top)
    ensures d.confidence == top / Total(RawScores(scores, request.choices))
  {
    var cs, ps := request.choices, d.probabilities;
    var total := Total(RawScores(scores, cs));
    DecidedSelection(id, scores, request, d, 0);
    var k :| 0 <= k < |ps| && ps[k] == Probability(d.selectedChoiceId, d.confidence);
    var c :| c in cs && ScoreFor(scores, c.id) == top;
    var i :| 0 <= i < |cs| && cs[i] == c;
    DecidedSelection(id, scores, request, d, i);
    assert cs[k] in cs && ScoreFor(scores, cs[k].id) <= top;
    SharesCompare(ScoreFor(scores, cs[k].id), top, total);
  }

  lemma ConfidenceReaches(id: string, scores: Scores, request: Request, d: Decision, top: real, c: real)
    requires Decidable(id, scores, request) && DecidedBy(id, scores, request, d)
             && TopScore(scores, request.choices, top)
    ensures d.confidence >= c <==> top >= c * Total(RawScores(scores, request.choices))
  {
    TopShare(id, scores, request, d, top);
    ShareAtLeast(top, Total(RawScores(scores, request.choices)), c);
  }

  /** Under a policy whose threshold implies its margin, a valid decision is routed exactly on these conditions. */
  lemma AutoRouteIff(packet: Metro.Packet, request: Request, d: Decision, policy: GatePolicy, now: string)
    requires ValidDecision(packet, request, d) && PolicyOk(policy) && MarginImplied(policy)
    ensures Verdict(packet, request, d, policy, now).Some?
    ensures Verdict(packet, request, d, policy, now).value.disposition == AutoRoute <==>
              && !(packet.constraints.sideEffect && policy.requireApprovalForSideEffects)
              && d.confidence >= policy.autoRouteConfidence
              && ProbabilityOf(d.probabilities, d.selectedChoiceId) >= policy.autoRouteConfidence
  {
    VerdictDefined(packet, request, d, policy, now);
    MarginNeverTooSmall(packet, request, d, policy, now);
    hide ValidDecision;
  }

  /**
    Under the default policy the provider auto-routes exactly when the packet has
    no side effect and the top score is at least 0.98 of the total.
   */
  lemma ProviderAutoRoutesIff(packet: Metro.Packet, requestId: string, state: Option<Object>, cs: seq<Choice>,
                              at: string,
                              id: string, scores: Scores, request: Request, d: Decision, top: real, now: string)
    requires Askable(packet, requestId, cs) && request == BoundRequest(packet, requestId, state, cs, at)
    requires Decidable(id, scores, request) && DecidedBy(id, scores, request, d) && TopScore(scores, cs, top)
    ensures ValidDecision(packet, request, d) && Verdict(packet, request, d, DefaultGatePolicy, now).Some?
    ensures Verdict(packet, request, d, DefaultGatePolicy, now).value.disposition == AutoRoute <==>
              !packet.constraints.sideEffect && top >= 0.98 * Total(RawScores(scores, cs))
  {
    hide Verdict, Askable, DecidedBy, TopScore, RawScores, Total, Scaled;
    ProviderDecisionValid(packet, requestId, state, cs, at, id, scores, request, d);
    ConfidenceReaches(id, scores, request, d, top, 0.98);
    hide ValidDecision;
    AutoRouteIff(packet, request, d, DefaultGatePolicy, now);
  }
}
