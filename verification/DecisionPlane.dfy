/**
  The decision plane (internal/decisionplane/decision.go): requests bound by
  hashes, validation of a probability distribution, and the gate that routes.
  Probabilities are exact reals.
 */
module DecisionPlane {
  import opened Common
  import opened Ordering
  import Metro

  const RequestProtocol := "metro.decision.request.v0.1"
  const ResultProtocol := "metro.decision.result.v0.1"
  const AutoRoute := "AUTO_ROUTE"
  const EscalateSystem2 := "ESCALATE_SYSTEM2"
  const RequireApproval := "REQUIRE_APPROVAL"
  const Tolerance := 0.000001

  datatype Choice = Choice(id: string, target: string, text: string)

  datatype Request = Request(
    protocol: string, requestId: string, actionId: string, packetHash: Digest<Metro.Packet>, state: Option<Object>,
    stateHash: Digest<Option<Object>>, choices: seq<Choice>, choicesHash: Digest<seq<Choice>>, requestedAt: string)

  datatype Probability = Probability(choiceId: string, probability: real)

  datatype Decision = Decision(
    protocol: string, requestId: string, actionId: string, providerId: string, packetHash: Digest<Metro.Packet>,
    stateHash: Digest<Option<Object>>, choicesHash: Digest<seq<Choice>>, selectedChoiceId: string,
    probabilities: seq<Probability>, confidence: real, decidedAt: string)

  datatype GatePolicy = GatePolicy(autoRouteConfidence: real, minTopMargin: real, requireApprovalForSideEffects: bool,
                                   policyRef: string)

  const DefaultGatePolicy := GatePolicy(0.98, 0.15, true, "policy://decision-plane/v0.6/default")

  datatype GateResult = GateResult(disposition: string, reasonCode: string, confidence: real, topMargin: real,
                                   route: Option<Metro.Route>)

  datatype DecisionError =
    | PacketWithoutAction | NoRequestId | NoChoices | IncompleteChoice | DuplicateChoiceId | DuplicateTarget
    | TargetNotAllowed | Unbound | NoProvider | NoSelection | ConfidenceOutOfRange | UnknownSelection
    | SelectedTargetNotAllowed
    | WrongDistributionSize | UnknownProbability | DuplicateProbability | ProbabilityOutOfRange | SumNotOne
    | SelectionWithoutProbability | SelectionNotMaximal | BadThreshold | BadMargin | LookupFailed
    | ProviderWithoutId | NegativeScore | NoMass

  function IdOf(c: Choice): string { c.id }

  function ChoiceIdOf(p: Probability): string { p.choiceId }

  function HashChoices(cs: seq<Choice>): Digest<seq<Choice>> {
    Sha256(SortBy(IdOf, cs))
  }

  // ---- requests ----

  ghost predicate DistinctIds(cs: seq<Choice>) {
    forall i, j | 0 <= i < j < |cs| :: cs[i].id != cs[j].id
  }

  ghost predicate DistinctTargets(cs: seq<Choice>) {
    forall i, j | 0 <= i < j < |cs| :: cs[i].target != cs[j].target
  }

  ghost predicate ChoiceOk(packet: Metro.Packet, c: Choice) {
    c.id != "" && c.target != "" && c.target in packet.allowedTargets
  }

  /** What NewRequest checks. */
  ghost predicate Askable(packet: Metro.Packet, requestId: string, cs: seq<Choice>) {
    && packet.actionId != "" && requestId != "" && cs != []
    && (forall i | 0 <= i < |cs| :: ChoiceOk(packet, cs[i])) && DistinctIds(cs) && DistinctTargets(cs)
  }

  function BoundRequest(packet: Metro.Packet, requestId: string, state: Option<Object>, cs: seq<Choice>,
                        at: string): Request {
    Request(RequestProtocol, requestId, packet.actionId, Sha256(packet), state, Sha256(state), cs, HashChoices(cs), at)
  }

  /** The loop over the offered choices. */
  method CheckChoices(packet: Metro.Packet, cs: seq<Choice>) returns (r: Outcome<DecisionError>)
    ensures r.Pass? <==> (forall i | 0 <= i < |cs| :: ChoiceOk(packet, cs[i])) && DistinctIds(cs) && DistinctTargets(cs)
  {
    ghost var ids, targets := Keys(IdOf, cs), Keys(TargetOfChoice, cs);
    KeysDistinct(cs);
    hide Collected, Distinct, DistinctIds, DistinctTargets;
    var seenIds, seenTargets: set<string> := {}, {};
    NoneCollected(ids);
    NoneCollected(targets);
    for i := 0 to |cs|
      invariant forall j | 0 <= j < i :: ChoiceOk(packet, cs[j])
      invariant Collected(ids, i, seenIds) && Collected(targets, i, seenTargets)
    {
      CollectNext(ids, i, seenIds);
      CollectNext(targets, i, seenTargets);
      if cs[i].id == "" || cs[i].target == "" { return Fail(IncompleteChoice); }
      if cs[i].id in seenIds { return Fail(DuplicateChoiceId); }
      if cs[i].target in seenTargets { return Fail(DuplicateTarget); }
      var allowed := Metro.Contains(packet.allowedTargets, cs[i].target);
      if !allowed { return Fail(TargetNotAllowed); }
      seenIds, seenTargets := seenIds + {cs[i].id}, seenTargets + {cs[i].target};
    }
    CollectedAll(ids, seenIds);
    CollectedAll(targets, seenTargets);
    return Pass;
  }

  function TargetOfChoice(c: Choice): string { c.target }

  lemma KeysDistinct(cs: seq<Choice>)
    ensures DistinctIds(cs) <==> Distinct(Keys(IdOf, cs))
    ensures DistinctTargets(cs) <==> Distinct(Keys(TargetOfChoice, cs))
  {
    var ids, targets := Keys(IdOf, cs), Keys(TargetOfChoice, cs);
    assert forall i | 0 <= i < |cs| :: ids[i] == cs[i].id && targets[i] == cs[i].target;
  }

  method NewRequest(packet: Metro.Packet, requestId: string, state: Option<Object>, cs: seq<Choice>, at: string)
    returns (r: Result<Request, DecisionError>)
    ensures r.Ok? <==>
              && packet.actionId != "" && requestId != "" && |cs| > 0
              && (forall c | c in cs :: c.id != "" && c.target != "" && c.target in packet.allowedTargets)
              && (forall i, j | 0 <= i < j < |cs| :: cs[i].id != cs[j].id && cs[i].target != cs[j].target)
    ensures r.Ok? <==> Askable(packet, requestId, cs)
    ensures r.Ok? ==> r.value == BoundRequest(packet, requestId, state, cs, at)
  {
    assert (forall c | c in cs :: ChoiceOk(packet, c)) <==> forall i | 0 <= i < |cs| :: ChoiceOk(packet, cs[i]);
    if packet.actionId == "" { return Err(PacketWithoutAction); }
    if requestId == "" { return Err(NoRequestId); }
    if |cs| == 0 { return Err(NoChoices); }
    var checked := CheckChoices(packet, cs);
    if checked.Fail? { return Err(checked.error); }
    return Ok(BoundRequest(packet, requestId, state, cs, at));
  }

  // ---- sums and maxima over a distribution ----

  function Total(ps: seq<Probability>): real {
    if ps == [] then 0.0 else Total(ps[..|ps| - 1]) + ps[|ps| - 1].probability
  }

  /** The probability given to a choice; the last one listed, or -1. */
  function ProbabilityOf(ps: seq<Probability>, id: string): real {
    if ps == [] then -1.0
    else if ps[|ps| - 1].choiceId == id then ps[|ps| - 1].probability
    else ProbabilityOf(ps[..|ps| - 1], id)
  }

  function Maximum(ps: seq<Probability>): real {
    if ps == [] then -1.0
    else
      var m := Maximum(ps[..|ps| - 1]);
      if ps[|ps| - 1].probability > m then ps[|ps| - 1].probability else m
  }

  /** The largest probability of any other choice, or 0. */
  function RunnerUp(ps: seq<Probability>, id: string): real {
    if ps == [] then 0.0
    else
      var m := RunnerUp(ps[..|ps| - 1], id);
      if ps[|ps| - 1].choiceId != id && ps[|ps| - 1].probability > m then ps[|ps| - 1].probability else m
  }

  ghost predicate InRange(ps: seq<Probability>) {
    forall i | 0 <= i < |ps| :: 0.0 <= ps[i].probability <= 1.0
  }

  ghost predicate NonNegative(ps: seq<Probability>) {
    forall i | 0 <= i < |ps| :: 0.0 <= ps[i].probability
  }

  ghost predicate DistinctEntries(ps: seq<Probability>) {
    forall i, j | 0 <= i < j < |ps| :: ps[i].choiceId != ps[j].choiceId
  }

  lemma {:induction false} ProbabilityAt(ps: seq<Probability>, i: nat)
    requires DistinctEntries(ps) && i < |ps|
    ensures ProbabilityOf(ps, ps[i].choiceId) == ps[i].probability
  {
    if i < |ps| - 1 {
      assert ps[i].choiceId != ps[|ps| - 1].choiceId;
      ProbabilityAt(ps[..|ps| - 1], i);
    }
  }

  lemma {:induction false} ProbabilityMissing(ps: seq<Probability>, id: string)
    requires forall i | 0 <= i < |ps| :: ps[i].choiceId != id
    ensures ProbabilityOf(ps, id) == -1.0
  {
    if ps != [] { ProbabilityMissing(ps[..|ps| - 1], id); }
  }

  lemma {:induction false} MaximumBounds(ps: seq<Probability>)
    requires NonNegative(ps)
    ensures forall i | 0 <= i < |ps| :: ps[i].probability <= Maximum(ps)
    ensures ps != [] ==> exists i :: 0 <= i < |ps| && ps[i].probability == Maximum(ps)
  {
    if ps != [] {
      var init, last := ps[..|ps| - 1], ps[|ps| - 1];
      assert NonNegative(init);
      MaximumBounds(init);
      forall i | 0 <= i < |ps| ensures ps[i].probability <= Maximum(ps) {
        if i < |init| { assert init[i].probability <= Maximum(init); }
      }
      if last.probability > Maximum(init) {
        assert ps[|ps| - 1].probability == Maximum(ps);
      } else {
        assert init != [];
        var i :| 0 <= i < |init| && init[i].probability == Maximum(init);
        assert ps[i].probability == Maximum(ps);
      }
    }
  }

  lemma {:induction false} TotalBounds(ps: seq<Probability>, i: nat)
    requires NonNegative(ps)
    ensures Total(ps) >= 0.0 && (i < |ps| ==> Total(ps) >= ps[i].probability)
  {
    if ps != [] {
      assert NonNegative(ps[..|ps| - 1]);
      TotalBounds(ps[..|ps| - 1], i);
    }
  }

  /** Any two entries together weigh no more than the whole. */
  lemma {:induction false} PairWithinTotal(ps: seq<Probability>, i: nat, j: nat)
    requires NonNegative(ps) && i < j < |ps|
    ensures ps[i].probability + ps[j].probability <= Total(ps)
  {
    var init := ps[..|ps| - 1];
    assert NonNegative(init);
    if j < |init| { PairWithinTotal(init, i, j); } else { TotalBounds(init, i); }
  }

  lemma {:induction false} RunnerUpIs(ps: seq<Probability>, id: string)
    requires NonNegative(ps)
    ensures RunnerUp(ps, id) >= 0.0
    ensures forall i | 0 <= i < |ps| && ps[i].choiceId != id :: ps[i].probability <= RunnerUp(ps, id)
    ensures RunnerUp(ps, id) == 0.0 || exists i ::
              0 <= i < |ps| && ps[i].choiceId != id && ps[i].probability == RunnerUp(ps, id)
  {
    if ps != [] {
      var init, last := ps[..|ps| - 1], ps[|ps| - 1];
      assert NonNegative(init);
      RunnerUpIs(init, id);
      forall i | 0 <= i < |ps| && ps[i].choiceId != id ensures ps[i].probability <= RunnerUp(ps, id) {
        if i < |init| { assert init[i].probability <= RunnerUp(init, id); }
      }
      if last.choiceId != id && last.probability > RunnerUp(init, id) {
        assert ps[|ps| - 1].probability == RunnerUp(ps, id);
      } else if RunnerUp(init, id) != 0.0 {
        var i :| 0 <= i < |init| && init[i].choiceId != id && init[i].probability == RunnerUp(init, id);
        assert ps[i].probability == RunnerUp(ps, id);
      }
    }
  }

  // ---- valid decisions ----

  /** The hashes and identifiers that tie a decision to its request and packet. */
  predicate BoundTo(packet: Metro.Packet, request: Request, d: Decision) {
    && request.protocol == RequestProtocol && d.protocol == ResultProtocol
    && request.actionId == packet.actionId && d.actionId == packet.actionId && d.requestId == request.requestId
    && request.packetHash == Sha256(packet) && d.packetHash == request.packetHash
    && request.stateHash == Sha256(request.state) && d.stateHash == request.stateHash
    && request.choicesHash == HashChoices(request.choices) && d.choicesHash == request.choicesHash
  }

  ghost predicate Known(cs: seq<Choice>, id: string) {
    exists c :: c in cs && c.id == id
  }

  /** A probability distribution over exactly these choices. */
  ghost predicate Distribution(cs: seq<Choice>, ps: seq<Probability>) {
    && |ps| == |cs| && DistinctIds(cs) && DistinctEntries(ps) && InRange(ps)
    && (forall i | 0 <= i < |ps| :: Known(cs, ps[i].choiceId))
    && -Tolerance <= Total(ps) - 1.0 <= Tolerance
  }

  /** No entry exceeds entry i by more than the tolerance. */
  ghost predicate Tops(ps: seq<Probability>, i: nat)
    requires i < |ps|
  {
    forall j | 0 <= j < |ps| :: ps[j].probability <= ps[i].probability + Tolerance
  }

  /**
    The selection is a choice with an allowed target, and no probability exceeds its own
    by more than the tolerance.
   */
  ghost predicate SelectsTop(packet: Metro.Packet, cs: seq<Choice>, ps: seq<Probability>, selected: string) {
    && (exists c :: c in cs && c.id == selected && c.target in packet.allowedTargets)
    && (exists i :: 0 <= i < |ps| && ps[i].choiceId == selected && Tops(ps, i))
  }

  ghost predicate ValidDecision(packet: Metro.Packet, request: Request, d: Decision) {
    && BoundTo(packet, request, d) && d.providerId != "" && d.selectedChoiceId != "" && 0.0 <= d.confidence <= 1.0
    && Distribution(request.choices, d.probabilities)
    && SelectsTop(packet, request.choices, d.probabilities, d.selectedChoiceId)
  }

  /** Bound exactly when request and decision are the records made for this packet, state and choices. */
  lemma BoundToIff(packet: Metro.Packet, request: Request, d: Decision)
    ensures BoundTo(packet, request, d) <==>
              && request == BoundRequest(packet, request.requestId, request.state, request.choices, request.requestedAt)
              && d == Decision(ResultProtocol, request.requestId, packet.actionId, d.providerId, Sha256(packet),
                               Sha256(request.state), HashChoices(request.choices), d.selectedChoiceId,
                               d.probabilities, d.confidence, d.decidedAt)
  {
  }

  /**
    Valid exactly when bound, with one probability for each choice, all in range and
    adding up to 1, and with an allowed selection that no other choice beats, each up to 10^-6.
   */
  lemma ValidDecisionIff(packet: Metro.Packet, request: Request, d: Decision)
    ensures ValidDecision(packet, request, d) <==>
              var cs, ps := request.choices, d.probabilities;
              && BoundTo(packet, request, d) && d.providerId != "" && 0.0 <= d.confidence <= 1.0
              && |ps| == |cs| && d.selectedChoiceId != ""
              && (forall i, j | 0 <= i < j < |cs| :: cs[i].id != cs[j].id && ps[i].choiceId != ps[j].choiceId)
              && (forall i | 0 <= i < |cs| :: 0.0 <= ps[i].probability <= 1.0 && ps[i].choiceId in Keys(IdOf, cs))
              && -0.000001 <= Total(ps) - 1.0 <= 0.000001
              && (exists c :: c in cs && c.id == d.selectedChoiceId && c.target in packet.allowedTargets)
              && (forall i | 0 <= i < |ps| ::
                    ps[i].probability <= ProbabilityOf(ps, d.selectedChoiceId) + 0.000001)
  {
    var cs, ps, id := request.choices, d.probabilities, d.selectedChoiceId;
    hide BoundTo, Total, Known;
    forall i | 0 <= i < |ps| ensures Known(cs, ps[i].choiceId) <==> ps[i].choiceId in Keys(IdOf, cs) {
      KnownIsKey(cs, ps[i].choiceId);
    }
    if |ps| == |cs| && DistinctEntries(ps) && InRange(ps)
       && (forall i | 0 <= i < |ps| :: Known(cs, ps[i].choiceId)) {
      SelectionTops(packet, cs, ps, id);
    }
  }

  lemma SelectionTops(packet: Metro.Packet, cs: seq<Choice>, ps: seq<Probability>, id: string)
    requires |ps| == |cs| && DistinctEntries(ps) && InRange(ps)
    requires forall i | 0 <= i < |ps| :: Known(cs, ps[i].choiceId)
    ensures SelectsTop(packet, cs, ps, id) <==>
              && (exists c :: c in cs && c.id == id && c.target in packet.allowedTargets)
              && (forall i | 0 <= i < |ps| :: ps[i].probability <= ProbabilityOf(ps, id) + Tolerance)
  {
    hide ProbabilityOf, Known;
    if c :| c in cs && c.id == id && c.target in packet.allowedTargets {
      Pigeonhole(cs, ps);
      var k := Keys(ChoiceIdOf, ps);
      var i :| 0 <= i < |k| && k[i] == id;
      assert ps[i].choiceId == id;
      ProbabilityAt(ps, i);
      forall j | 0 <= j < |ps| && ps[j].choiceId == id ensures j == i {}
    }
  }

  lemma IdsCard(cs: seq<Choice>)
    ensures |set x | x in Keys(IdOf, cs)| <= |cs|
    ensures |set x | x in Keys(IdOf, cs)| == |cs| <==> DistinctIds(cs)
  {
    var k := Keys(IdOf, cs);
    CardAtMostLength(k);
    if DistinctIds(cs) {
      forall i, j | 0 <= i < j < |k| ensures k[i] != k[j] { assert cs[i].id != cs[j].id; }
      DistinctCard(k);
    }
    if |set x | x in k| == |cs| {
      FullCardDistinct(k);
      forall i, j | 0 <= i < j < |cs| ensures cs[i].id != cs[j].id { assert k[i] != k[j]; }
    }
  }

  lemma EntriesCard(ps: seq<Probability>)
    requires DistinctEntries(ps)
    ensures |set x | x in Keys(ChoiceIdOf, ps)| == |ps|
  {
    var k := Keys(ChoiceIdOf, ps);
    forall i, j | 0 <= i < j < |k| ensures k[i] != k[j] { assert ps[i].choiceId != ps[j].choiceId; }
    DistinctCard(k);
  }

  lemma KnownIsKey(cs: seq<Choice>, id: string)
    ensures Known(cs, id) <==> id in Keys(IdOf, cs)
  {
    var k := Keys(IdOf, cs);
    if id in k {
      var i :| 0 <= i < |k| && k[i] == id;
      assert cs[i] in cs;
    }
    if c :| c in cs && c.id == id {
      var i :| 0 <= i < |cs| && cs[i] == c;
      assert k[i] == id;
    }
  }

  /**
    Pigeonhole: as many distinct known entries as choices leaves no choice out and
    no choice repeated, although nothing compares the choice ids with each other.
   */
  lemma Pigeonhole(cs: seq<Choice>, ps: seq<Probability>)
    requires |ps| == |cs| && DistinctEntries(ps) && forall i | 0 <= i < |ps| :: Known(cs, ps[i].choiceId)
    ensures DistinctIds(cs)
    ensures forall c | c in cs :: c.id in Keys(ChoiceIdOf, ps)
  {
    var entries, ids := Keys(ChoiceIdOf, ps), Keys(IdOf, cs);
    forall x | x in entries ensures x in ids {
      var i :| 0 <= i < |ps| && entries[i] == x;
      KnownIsKey(cs, x);
    }
    EntriesCard(ps);
    IdsCard(cs);
    var small, large := set x | x in entries, set x | x in ids;
    assert small <= large;
    SubsetSameCard(small, large);
    forall c | c in cs ensures c.id in entries {
      KnownIsKey(cs, c.id);
      assert Known(cs, c.id);
      assert c.id in large;
    }
  }

  /** Each choice of a valid decision has exactly one probability, and each probability exactly one choice. */
  lemma ChoicesAndProbabilitiesMatch(packet: Metro.Packet, request: Request, d: Decision)
    requires ValidDecision(packet, request, d)
    ensures forall c | c in request.choices :: exists i ::
              0 <= i < |d.probabilities| && d.probabilities[i].choiceId == c.id
    ensures DistinctEntries(d.probabilities)
    ensures forall i | 0 <= i < |d.probabilities| :: Known(request.choices, d.probabilities[i].choiceId)
    ensures forall a, b | a in request.choices && b in request.choices && a.id == b.id :: a == b
  {
    var cs, ps := request.choices, d.probabilities;
    Pigeonhole(cs, ps);
    forall c | c in cs ensures exists i :: 0 <= i < |ps| && ps[i].choiceId == c.id {
      var k := Keys(ChoiceIdOf, ps);
      var i :| 0 <= i < |k| && k[i] == c.id;
      assert ps[i].choiceId == c.id;
    }
    forall a, b | a in cs && b in cs && a.id == b.id ensures a == b { SameIdSameChoice(cs, a, b); }
  }

  /** A decision is valid for one packet, one state and one set of choices only. */
  lemma DecisionPinsRequest(p: Metro.Packet, r: Request, q: Metro.Packet, t: Request, d: Decision)
    requires ValidDecision(p, r, d) && ValidDecision(q, t, d)
    ensures p == q && r.requestId == t.requestId && r.state == t.state && multiset(r.choices) == multiset(t.choices)
  {
    hide Distribution, SelectsTop;
    SortMembers(IdOf, r.choices);
    SortMembers(IdOf, t.choices);
    assert SortBy(IdOf, r.choices) == SortBy(IdOf, t.choices);
  }

  lemma SameIdSameChoice(cs: seq<Choice>, a: Choice, b: Choice)
    requires DistinctIds(cs) && a in cs && b in cs && a.id == b.id
    ensures a == b
  {
    var i :| 0 <= i < |cs| && cs[i] == a;
    var j :| 0 <= j < |cs| && cs[j] == b;
  }

  lemma SelectionIs(packet: Metro.Packet, cs: seq<Choice>, ps: seq<Probability>, selected: Choice)
    requires DistinctIds(cs) && selected in cs
    ensures SelectsTop(packet, cs, ps, selected.id) ==> selected.target in packet.allowedTargets
  {
    if SelectsTop(packet, cs, ps, selected.id) {
      var c :| c in cs && c.id == selected.id && c.target in packet.allowedTargets;
      SameIdSameChoice(cs, c, selected);
    }
  }

  // ---- validation ----

  /** choiceByID; on repeated ids the last choice wins. */
  method IndexChoices(cs: seq<Choice>) returns (byId: map<string, Choice>)
    ensures forall id :: id in byId <==> Known(cs, id)
    ensures forall id | id in byId :: byId[id] in cs && byId[id].id == id
  {
    byId := map[];
    for i := 0 to |cs|
      invariant forall j | 0 <= j < i :: cs[j].id in byId
      invariant forall id | id in byId :: byId[id] in cs && byId[id].id == id
    {
      byId := byId[cs[i].id := cs[i]];
    }
  }

  datatype Tally = Tally(total: real, selected: real, maximum: real)

  /** The loop over the distribution. */
  method TallyProbabilities(byId: map<string, Choice>, ps: seq<Probability>, selected: string)
    returns (r: Result<Tally, DecisionError>)
    ensures r.Ok? <==> DistinctEntries(ps) && InRange(ps) && forall i | 0 <= i < |ps| :: ps[i].choiceId in byId
    ensures r.Ok? ==> r.value == Tally(Total(ps), ProbabilityOf(ps, selected), Maximum(ps))
  {
    ghost var ids := Keys(ChoiceIdOf, ps);
    EntriesDistinct(ps);
    hide Collected, Distinct, DistinctEntries, Total, ProbabilityOf, Maximum;
    var seen: set<string>, total, selectedProbability, maxProbability := {}, 0.0, -1.0, -1.0;
    NoneCollected(ids);
    NothingTallied(selected);
    for i := 0 to |ps|
      invariant forall j | 0 <= j < i :: ps[j].choiceId in byId && 0.0 <= ps[j].probability <= 1.0
      invariant Collected(ids, i, seen)
      invariant total == Total(ps[..i]) && selectedProbability == ProbabilityOf(ps[..i], selected)
                && maxProbability == Maximum(ps[..i])
    {
      var p := ps[i];
      CollectNext(ids, i, seen);
      OneMoreTallied(ps, i, selected);
      if p.choiceId !in byId { return Err(UnknownProbability); }
      if p.choiceId in seen { return Err(DuplicateProbability); }
      if p.probability < 0.0 || p.probability > 1.0 { return Err(ProbabilityOutOfRange); }
      seen := seen + {p.choiceId};
      total := total + p.probability;
      if p.choiceId == selected { selectedProbability := p.probability; }
      if p.probability > maxProbability { maxProbability := p.probability; }
    }
    CollectedAll(ids, seen);
    assert ps[..|ps|] == ps;
    return Ok(Tally(total, selectedProbability, maxProbability));
  }

  lemma EntriesDistinct(ps: seq<Probability>)
    ensures DistinctEntries(ps) <==> Distinct(Keys(ChoiceIdOf, ps))
  {
    var ids := Keys(ChoiceIdOf, ps);
    assert forall i | 0 <= i < |ps| :: ids[i] == ps[i].choiceId;
  }

  lemma NothingTallied(selected: string)
    ensures Total([]) == 0.0 && ProbabilityOf([], selected) == -1.0 && Maximum([]) == -1.0
  {
  }

  lemma OneMoreTallied(ps: seq<Probability>, i: nat, selected: string)
    requires i < |ps|
    ensures Total(ps[..i + 1]) == Total(ps[..i]) + ps[i].probability
    ensures ProbabilityOf(ps[..i + 1], selected) ==
            if ps[i].choiceId == selected then ps[i].probability else ProbabilityOf(ps[..i], selected)
    ensures Maximum(ps[..i + 1]) ==
            if ps[i].probability > Maximum(ps[..i]) then ps[i].probability else Maximum(ps[..i])
  {
    assert ps[..i + 1][..i] == ps[..i];
  }

  /** Given the entries are in order, the two closing comparisons are SelectsTop's second half. */
  lemma TallyDecides(ps: seq<Probability>, selected: string)
    requires DistinctEntries(ps) && InRange(ps)
    ensures ProbabilityOf(ps, selected) >= 0.0 && ProbabilityOf(ps, selected) + Tolerance >= Maximum(ps) <==>
            exists i :: 0 <= i < |ps| && ps[i].choiceId == selected && Tops(ps, i)
  {
    MaximumBounds(ps);
    if i :| 0 <= i < |ps| && ps[i].choiceId == selected {
      ProbabilityAt(ps, i);
      forall k | 0 <= k < |ps| && ps[k].choiceId == selected ensures k == i {
      }
    } else {
      ProbabilityMissing(ps, selected);
    }
  }

  /** ValidateDecision accepts exactly the valid decisions. */
  method ValidateDecision(packet: Metro.Packet, request: Request, d: Decision) returns (r: Outcome<DecisionError>)
    ensures r.Pass? <==> ValidDecision(packet, request, d)
  {
    if !BoundTo(packet, request, d) { return Fail(Unbound); }
    if d.providerId == "" { return Fail(NoProvider); }
    if d.selectedChoiceId == "" { return Fail(NoSelection); }
    if d.confidence < 0.0 || d.confidence > 1.0 { return Fail(ConfidenceOutOfRange); }
    var cs, ps := request.choices, d.probabilities;
    var byId := IndexChoices(cs);
    if d.selectedChoiceId !in byId { return Fail(UnknownSelection); }
    var selected := byId[d.selectedChoiceId];
    var allowed := Metro.Contains(packet.allowedTargets, selected.target);
    if !allowed {
      if DistinctIds(cs) { SelectionIs(packet, cs, ps, selected); }
      return Fail(SelectedTargetNotAllowed);
    }
    if |ps| != |cs| { return Fail(WrongDistributionSize); }
    var tally := TallyProbabilities(byId, ps, d.selectedChoiceId);
    if tally.Err? { return Fail(tally.error); }
    Pigeonhole(cs, ps);
    TallyDecides(ps, d.selectedChoiceId);
    if tally.value.total - 1.0 > Tolerance || 1.0 - tally.value.total > Tolerance { return Fail(SumNotOne); }
    if tally.value.selected < 0.0 { return Fail(SelectionWithoutProbability); }
    if tally.value.selected + Tolerance < tally.value.maximum { return Fail(SelectionNotMaximal); }
    return Pass;
  }
}
