/**
  The control-plane bridge (internal/lifetrabridge): when a station's decision
  may become a dispatchable packet, and when it is bound to the request that
  asked for it.
 */
module Bridge {
  import opened Common
  import Metro

  const DecisionProtocol := "lifetra.decision.v0.1"
  const VerdictAllow := "ALLOW"
  const VerdictRequireApproval := "REQUIRE_APPROVAL"
  const VerdictBlock := "BLOCK"
  const ReceiptRefPrefix := "metro-receipt://"
  const ObservationRefPrefix := "lifetra-observation://"

  datatype Observation = Observation(observationId: string, actionId: string, receiptId: string)

  /** The part of a station request that a decision must answer. */
  datatype StationRequest = StationRequest(observation: Observation)

  datatype NextAction = NextAction(
    actionId: string, goal: string, kind: string, inputs: Object,
    allowedTargets: seq<string>, timeoutMs: int, sideEffect: bool)

  datatype Decision = Decision(
    protocol: string, decisionId: string, sourceObservationId: string, sourceReceiptRef: string,
    causedByActionId: string, sourceBeadRef: string, verdict: string, authorityProofRef: string,
    nextAction: Option<NextAction>, decidedAt: string)

  datatype BridgeError =
    | DecisionProtocolMismatch | DecisionIncomplete | NotDispatchAuthority | AuthorityRefMissing
    | NextActionMissing | NextActionIncomplete | NoAllowedTargets | TargetsNotUnique
    | NegativeTimeout | ActionIdReused
    | ObservationMismatch | ActionMismatch | ReceiptRefMismatch | NonAllowCarriesAuthority | UnsupportedVerdict

  predicate AllNonEmptyAndDistinct(values: seq<string>) {
    "" !in values && Distinct(values)
  }

  method UniqueNonEmpty(values: seq<string>) returns (ok: bool)
    ensures ok <==> && (forall i | 0 <= i < |values| :: values[i] != "")
                    && (forall i, j | 0 <= i < j < |values| :: values[i] != values[j])
    ensures ok <==> AllNonEmptyAndDistinct(values)
  {
    var seen: set<string> := {};
    for i := 0 to |values|
      invariant seen == set x | x in values[..i]
      invariant AllNonEmptyAndDistinct(values[..i])
    {
      if values[i] == "" || values[i] in seen {
        if values[i] != "" {
          var j :| 0 <= j < i && values[j] == values[i];
        }
        return false;
      }
      assert values[..i + 1] == values[..i] + [values[i]];
      seen := seen + {values[i]};
    }
    assert values[..|values|] == values;
    return true;
  }

  /** The first reason DecisionToPacket refuses a decision, if any. */
  function DispatchRefusal(d: Decision): Outcome<BridgeError> {
    if d.protocol != DecisionProtocol then Fail(DecisionProtocolMismatch)
    else if d.decisionId == "" || d.sourceObservationId == "" || d.sourceReceiptRef == "" || d.causedByActionId == ""
      then Fail(DecisionIncomplete)
    else if d.verdict != VerdictAllow then Fail(NotDispatchAuthority)
    else if d.authorityProofRef == "" then Fail(AuthorityRefMissing)
    else if d.nextAction.None? then Fail(NextActionMissing)
    else
      var next := d.nextAction.value;
      if next.actionId == "" || next.goal == "" || next.kind == "" then Fail(NextActionIncomplete)
      else if next.allowedTargets == [] then Fail(NoAllowedTargets)
      else if !AllNonEmptyAndDistinct(next.allowedTargets) then Fail(TargetsNotUnique)
      else if next.timeoutMs < 0 then Fail(NegativeTimeout)
      else if next.actionId == d.causedByActionId then Fail(ActionIdReused)
      else Pass
  }

  /** Turns an ALLOW decision into the next packet; `now` is the packet's creation time. */
  method DecisionToPacket(d: Decision, now: string) returns (r: Result<Metro.Packet, BridgeError>)
    ensures r.Ok? <==> d.protocol == DecisionProtocol && Dispatchable(d)
    ensures r.Err? <==> DispatchRefusal(d).Fail?
    ensures r.Err? ==> r.error == DispatchRefusal(d).error
    ensures r.Ok? ==>
      var p := r.value;
      && p.protocol == Metro.PacketProtocol && p.sourceAgent == "lifetra-control" && p.createdAt == now
      && p.actionId == d.nextAction.value.actionId && p.actionId != d.causedByActionId
      && p.goal == d.nextAction.value.goal
      && p.action == Metro.Action(d.nextAction.value.kind, d.nextAction.value.inputs)
      && p.allowedTargets == d.nextAction.value.allowedTargets
      && p.constraints == Metro.Constraints(d.nextAction.value.timeoutMs, d.nextAction.value.sideEffect)
      && p.previousReceiptRef == d.sourceReceiptRef
      && p.contextRefs == [ObservationRefPrefix + d.sourceObservationId, d.authorityProofRef]
                          + (if d.sourceBeadRef == "" then [] else [d.sourceBeadRef])
  {
    DispatchedIffDispatchable(d);
    if d.protocol != DecisionProtocol { return Err(DecisionProtocolMismatch); }
    if d.decisionId == "" || d.sourceObservationId == "" || d.sourceReceiptRef == "" || d.causedByActionId == "" {
      return Err(DecisionIncomplete);
    }
    if d.verdict != VerdictAllow { return Err(NotDispatchAuthority); }
    if d.authorityProofRef == "" { return Err(AuthorityRefMissing); }
    if d.nextAction.None? { return Err(NextActionMissing); }
    var next := d.nextAction.value;
    if next.actionId == "" || next.goal == "" || next.kind == "" { return Err(NextActionIncomplete); }
    if |next.allowedTargets| == 0 { return Err(NoAllowedTargets); }
    var unique := UniqueNonEmpty(next.allowedTargets);
    if !unique { return Err(TargetsNotUnique); }
    if next.timeoutMs < 0 { return Err(NegativeTimeout); }
    if next.actionId == d.causedByActionId { return Err(ActionIdReused); }
    var packet := Metro.Packet(Metro.PacketProtocol, next.actionId, "lifetra-control", now, next.goal,
                               Metro.Action(next.kind, next.inputs), next.allowedTargets, [],
                               Metro.Constraints(0, false), "");
    packet := packet.(constraints := Metro.Constraints(next.timeoutMs, next.sideEffect),
                      previousReceiptRef := d.sourceReceiptRef);
    var refs := [ObservationRefPrefix + d.sourceObservationId, d.authorityProofRef];
    packet := packet.(contextRefs := packet.contextRefs + refs);
    if d.sourceBeadRef != "" {
      packet := packet.(contextRefs := packet.contextRefs + [d.sourceBeadRef]);
    }
    return Ok(packet);
  }

  /** The station-side check that a decision answers exactly this request (process.go). */
  function ValidateBinding(request: StationRequest, d: Decision): Outcome<BridgeError> {
    if d.protocol != DecisionProtocol then Fail(DecisionProtocolMismatch)
    else if d.sourceObservationId != request.observation.observationId then Fail(ObservationMismatch)
    else if d.causedByActionId != request.observation.actionId then Fail(ActionMismatch)
    else if d.sourceReceiptRef != ReceiptRefPrefix + request.observation.receiptId then Fail(ReceiptRefMismatch)
    else if d.verdict == VerdictAllow then DispatchRefusal(d)
    else if d.verdict == VerdictRequireApproval || d.verdict == VerdictBlock then
      if d.authorityProofRef != "" || d.nextAction.Some? then Fail(NonAllowCarriesAuthority) else Pass
    else Fail(UnsupportedVerdict)
  }

  /** Everything an ALLOW decision must carry to be dispatched. */
  ghost predicate Dispatchable(d: Decision) {
    && d.verdict == VerdictAllow && d.authorityProofRef != ""
    && d.decisionId != "" && d.sourceObservationId != "" && d.sourceReceiptRef != "" && d.causedByActionId != ""
    && d.nextAction.Some?
    && var next := d.nextAction.value;
       && next.actionId != "" && next.goal != "" && next.kind != ""
       && next.allowedTargets != [] && (forall i | 0 <= i < |next.allowedTargets| :: next.allowedTargets[i] != "")
       && (forall i, j | 0 <= i < j < |next.allowedTargets| :: next.allowedTargets[i] != next.allowedTargets[j])
       && next.timeoutMs >= 0 && next.actionId != d.causedByActionId
  }

  /** The decision asks for no dispatch and carries nothing that would allow one. */
  ghost predicate Withholds(d: Decision) {
    && (d.verdict == VerdictRequireApproval || d.verdict == VerdictBlock)
    && d.authorityProofRef == "" && d.nextAction.None?
  }

  /** The decision is about this request's observation, action and receipt, and is of one of the two kinds. */
  ghost predicate Answers(request: StationRequest, d: Decision) {
    && d.protocol == DecisionProtocol
    && d.sourceObservationId == request.observation.observationId
    && d.causedByActionId == request.observation.actionId
    && d.sourceReceiptRef == ReceiptRefPrefix + request.observation.receiptId
    && (Dispatchable(d) || Withholds(d))
  }

  lemma DispatchedIffDispatchable(d: Decision)
    ensures DispatchRefusal(d).Pass? <==> d.protocol == DecisionProtocol && Dispatchable(d)
  {
  }

  /** A decision binds to a request exactly when it answers it: neither more nor less is refused. */
  lemma BindsIffAnswers(request: StationRequest, d: Decision)
    ensures ValidateBinding(request, d).Pass? <==> Answers(request, d)
  {
    DispatchedIffDispatchable(d);
  }

  /** One decision never binds to two requests about different observations, actions or receipts. */
  lemma BindingSeparatesRequests(r1: StationRequest, r2: StationRequest, d: Decision)
    requires ValidateBinding(r1, d).Pass? && ValidateBinding(r2, d).Pass?
    ensures r1 == r2
  {
    var a, b := r1.observation.receiptId, r2.observation.receiptId;
    assert (ReceiptRefPrefix + a)[|ReceiptRefPrefix|..] == a;
    assert (ReceiptRefPrefix + b)[|ReceiptRefPrefix|..] == b;
  }
}
