/**
  The Metro protocol records (internal/metro): packets, routes, receipts, and
  the structural check that ties a receipt to the action it reports on.
 */
module Metro {
  import opened Common

  const PacketProtocol := "metro.packet.v0.1"
  const RouteProtocol := "metro.route.v0.1"
  const ReceiptProtocol := "metro.receipt.v0.1"

  datatype Action = Action(kind: string, inputs: Object)

  datatype Constraints = Constraints(timeoutMs: int, sideEffect: bool)

  datatype Packet = Packet(
    protocol: string, actionId: string, sourceAgent: string, createdAt: string, goal: string,
    action: Action, allowedTargets: seq<string>, contextRefs: seq<string>,
    constraints: Constraints, previousReceiptRef: string)

  datatype Candidate = Candidate(target: string, score: real)

  datatype Route = Route(
    protocol: string, routeId: string, actionId: string, routerId: string, decisionMode: string,
    selectedTarget: string, candidates: seq<Candidate>, confidence: real, policyRef: string, decidedAt: string)

  datatype Receipt = Receipt(
    protocol: string, receiptId: string, actionId: string, routeId: string, executorId: string,
    status: string, hashAlgorithm: string, inputHash: Digest<Json>, resultHash: Digest<Json>,
    resultRef: string, startedAt: string, completedAt: string)

  datatype VerifyError = ActionMismatch | RouteMismatch | ExecutorMismatch | TargetNotAllowed | InputHashMismatch
    | ResultHashMismatch

  function HashObject(o: Object): Digest<Json> {
    Sha256(Obj(o))
  }

  function Verify(packet: Packet, route: Route, result: Object, receipt: Receipt): Outcome<VerifyError> {
    if receipt.actionId != packet.actionId then Fail(ActionMismatch)
    else if receipt.routeId != route.routeId then Fail(RouteMismatch)
    else if receipt.executorId != route.selectedTarget then Fail(ExecutorMismatch)
    else if route.selectedTarget !in packet.allowedTargets then Fail(TargetNotAllowed)
    else if receipt.inputHash != HashObject(packet.action.inputs) then Fail(InputHashMismatch)
    else if receipt.resultHash != HashObject(result) then Fail(ResultHashMismatch)
    else Pass
  }

  datatype ReceiptError = RouteNotBound | RouteTargetNotAllowed

  function MakeSuccessReceipt(packet: Packet, route: Route, result: Object, resultRef: string,
                              started: string, completed: string): Result<Receipt, ReceiptError>
  {
    if route.actionId != packet.actionId then Err(RouteNotBound)
    else if route.selectedTarget !in packet.allowedTargets then Err(RouteTargetNotAllowed)
    else Ok(Receipt(ReceiptProtocol, "receipt-" + packet.actionId, packet.actionId, route.routeId, route.selectedTarget,
                    "SUCCEEDED", "sha256", HashObject(packet.action.inputs), HashObject(result),
                    resultRef, started, completed))
  }

  /** Linear search over a string list. */
  method Contains(values: seq<string>, target: string) returns (found: bool)
    ensures found <==> target in values
  {
    for i := 0 to |values|
      invariant target !in values[..i]
    {
      if values[i] == target {
        return true;
      }
    }
    return false;
  }

  /**
    A receipt pins the evidence: a verified receipt is the one MakeSuccessReceipt
    issues for that packet, route and result in every field that carries
    meaning, and no other inputs or result verify against it.
   */
  lemma VerifiedReceiptPinsResult(packet: Packet, route: Route, result: Object, receipt: Receipt,
                                  packet': Packet, route': Route, result': Object)
    requires Verify(packet, route, result, receipt).Pass?
    requires Verify(packet', route', result', receipt).Pass?
    ensures result == result' && packet.action.inputs == packet'.action.inputs
    ensures packet.actionId == packet'.actionId && route.routeId == route'.routeId
    ensures route.selectedTarget == route'.selectedTarget == receipt.executorId
    ensures receipt.executorId in packet.allowedTargets && receipt.executorId in packet'.allowedTargets
  {
    assert Obj(result) == Obj(result');
    assert Obj(packet.action.inputs) == Obj(packet'.action.inputs);
  }

  lemma IssuedReceiptVerifies(packet: Packet, route: Route, result: Object, resultRef: string, started: string,
                              completed: string)
    ensures MakeSuccessReceipt(packet, route, result, resultRef, started, completed).Ok? <==>
              route.actionId == packet.actionId && route.selectedTarget in packet.allowedTargets
    ensures var r := MakeSuccessReceipt(packet, route, result, resultRef, started, completed);
            r.Ok? ==> Verify(packet, route, result, r.value).Pass?
  {
  }
}
