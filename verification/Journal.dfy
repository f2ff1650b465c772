/**
  The reward journal of internal/adaptive/durable.go as mathematics: evidence
  checks, hash-chained entries, and what replaying a journal rebuilds.
 */
module Journal {
  import opened Common
  import opened Bandit
  import opened ContextPolicy
  import Metro

  const DurableEntryProtocol := "liminal.adaptive.reward-entry.v0.1"
  const ExperienceProtocol := "liminal.adaptive.experience.v0.1"
  const ExperienceRefPrefix := "adaptive-experience://"

  datatype Experience = Experience(
    protocol: string, experienceId: string, actionId: string, routeId: string, receiptId: string,
    receiptResultHash: Digest<Json>, context: Context, contextKey: string, selectedAction: string,
    reward: real, rewardUnit: string, statsBefore: Stats, statsAfter: Stats,
    previousExperienceRef: string, measuredAt: string)

  /** A measurement offered to the learner. */
  datatype Evidence = Evidence(receipt: Metro.Receipt, result: Object, experience: Experience)

  /** Everything an entry's own hash covers. */
  datatype EntryMaterial = EntryMaterial(
    protocol: string, sequence: int, evidence: Evidence,
    receiptHash: Digest<Metro.Receipt>, experienceHash: Digest<Experience>,
    previousEntryHash: Digest<EntryMaterial>, appliedAt: string)

  datatype DurableEntry = DurableEntry(material: EntryMaterial, entryHash: Digest<EntryMaterial>)

  type Log = seq<DurableEntry>

  /** The learner's memory: policy tables, identity maps, and the position in the chain. */
  datatype Memory = Memory(
    learned: Learned, receiptHashes: map<string, Digest<Metro.Receipt>>,
    experienceHashes: map<string, Digest<Experience>>, actionReceipts: map<string, string>,
    head: Digest<EntryMaterial>, sequence: int)

  const Blank := Memory(map[], map[], map[], map[], Empty, 0)

  datatype LearnError =
    | ReceiptProtocol | ReceiptNotSucceeded | ResultHashMissing | ExperienceProtocolMismatch | ContextIncomplete
    | ContextKeyMismatch | ProvenanceMismatch | ExecutorMismatch | ResultRefMismatch | ResultHashMismatch
    | ResultPayloadMismatch | ResultMetadataMismatch | RewardMismatch
    | ReceiptConflict | ExperienceReused | ActionReused | StateBeforeMismatch | ActionNotInPolicy | StateAfterMismatch
    | CommittedButObservationFailed | CommittedButDiverged
    | EntryProtocolMismatch | SequenceMismatch | PredecessorMismatch | EntryHashMismatch | ContentAddressMismatch
    | ReceiptDuplicated | ExperienceDuplicated | ActionDuplicated

  // ---- comparisons ----

  function Abs(x: real): real { if x < 0.0 then -x else x }

  function MaxOf(a: real, b: real): real { if a < b then b else a }

  /** Equal up to one part in 10^9 of the larger magnitude, or of 1; not transitive. */
  predicate AlmostEqual(a: real, b: real) {
    Abs(a - b) <= 0.000000001 * MaxOf(1.0, MaxOf(Abs(a), Abs(b)))
  }

  predicate SameStats(a: Stats, b: Stats) {
    && a.Keys == b.Keys
    && forall k | k in a :: a[k].count == b[k].count && AlmostEqual(a[k].mean, b[k].mean)
  }

  function ValueString(o: Object, key: string): string {
    if key in o && o[key].Str? then o[key].str else ""
  }

  function ValueFloat(o: Object, key: string): Option<real> {
    if key in o && o[key].Num? then Some(o[key].num) else None
  }

  // ---- evidence ----

  function EvidenceError(s: Settings, e: Evidence): Outcome<LearnError> {
    var receipt, result, exp := e.receipt, e.result, e.experience;
    if receipt.protocol != Metro.ReceiptProtocol then Fail(ReceiptProtocol)
    else if receipt.status != "SUCCEEDED" then Fail(ReceiptNotSucceeded)
    else if receipt.hashAlgorithm != "sha256" || !receipt.resultHash.IsHex() then Fail(ResultHashMissing)
    else if exp.protocol != ExperienceProtocol then Fail(ExperienceProtocolMismatch)
    else if !exp.context.Complete() then Fail(ContextIncomplete)
    else if exp.contextKey != s.keyOf(exp.context) then Fail(ContextKeyMismatch)
    else if receipt.receiptId != exp.receiptId || receipt.actionId != exp.actionId || receipt.routeId != exp.routeId
      then Fail(ProvenanceMismatch)
    else if receipt.executorId != exp.selectedAction then Fail(ExecutorMismatch)
    else if receipt.resultRef != ExperienceRefPrefix + exp.experienceId then Fail(ResultRefMismatch)
    else if receipt.resultHash != exp.receiptResultHash then Fail(ResultHashMismatch)
    else if Metro.HashObject(result) != receipt.resultHash then Fail(ResultPayloadMismatch)
    else if ValueString(result, "selected_action") != exp.selectedAction
      || ValueString(result, "context_key") != exp.contextKey
            || ValueString(result, "reward_unit") != exp.rewardUnit then Fail(ResultMetadataMismatch)
    else if ValueFloat(result, "reward").None? || !AlmostEqual(ValueFloat(result, "reward").value, exp.reward)
      then Fail(RewardMismatch)
    else Pass
  }

  /** At most one part in 10^9 of `t`. */
  predicate Within(x: real, t: real) {
    -0.000000001 * t <= x <= 0.000000001 * t
  }

  /** The tolerance is one part in 10^9 of 1 or of either reward's magnitude, whichever is most. */
  lemma AlmostEqualIs(a: real, b: real)
    ensures AlmostEqual(a, b) <==>
              || Within(a - b, 1.0) || Within(a - b, a) || Within(a - b, -a) || Within(a - b, b) || Within(a - b, -b)
  {
  }

  /** What the receipt must say to be learned from. */
  ghost predicate ReceiptOk(e: Evidence) {
    var r, exp := e.receipt, e.experience;
    && r.protocol == Metro.ReceiptProtocol && r.status == "SUCCEEDED" && r.hashAlgorithm == "sha256"
    && r.resultHash == Sha256(Obj(e.result)) && r.resultRef == "adaptive-experience://" + exp.experienceId
    && r.receiptId == exp.receiptId && r.actionId == exp.actionId && r.routeId == exp.routeId
    && r.executorId == exp.selectedAction && r.resultHash == exp.receiptResultHash
  }

  /** The result has this text under this key, or the text is empty and the result has none there. */
  ghost predicate Reports(result: Object, key: string, text: string) {
    if key in result && result[key].Str? then result[key] == Str(text) else text == ""
  }

  /** What the experience and the measured result must say. */
  ghost predicate ExperienceOk(s: Settings, e: Evidence) {
    var exp := e.experience;
    && exp.protocol == ExperienceProtocol && exp.contextKey == s.keyOf(exp.context)
    && exp.context.workload != "" && exp.context.cpuClass != "" && exp.context.loadClass != ""
    && exp.context.memoryClass != ""
    && Reports(e.result, "selected_action", exp.selectedAction) && Reports(e.result, "context_key", exp.contextKey)
    && Reports(e.result, "reward_unit", exp.rewardUnit)
    && "reward" in e.result && e.result["reward"].Num? && AlmostEqual(e.result["reward"].num, exp.reward)
  }

  /** A measurement passes exactly when its receipt, its experience and its result all say what they must. */
  lemma EvidencePassesIff(s: Settings, e: Evidence)
    ensures EvidenceError(s, e).Pass? <==> ReceiptOk(e) && ExperienceOk(s, e)
  {
    hide AlmostEqual;
  }

  /**
    A receipt pins its measurement: evidence accepted under one receipt has one
    result, experience id, action, context key and unit, and both rewards agree
    with the one the result reports.
   */
  lemma ReceiptPinsMeasurement(s: Settings, e: Evidence, t: Settings, f: Evidence)
    requires EvidenceError(s, e).Pass? && EvidenceError(t, f).Pass? && e.receipt == f.receipt
    ensures e.result == f.result && e.experience.experienceId == f.experience.experienceId
    ensures e.experience.receiptId == f.experience.receiptId == e.receipt.receiptId
    ensures e.experience.actionId == f.experience.actionId && e.experience.routeId == f.experience.routeId
    ensures e.experience.selectedAction == f.experience.selectedAction == e.receipt.executorId
    ensures e.experience.contextKey == f.experience.contextKey == s.keyOf(e.experience.context) ==
              t.keyOf(f.experience.context)
    ensures e.experience.rewardUnit == f.experience.rewardUnit
    ensures exists reported :: ValueFloat(e.result, "reward") == Some(reported)
                               && AlmostEqual(reported, e.experience.reward)
                               && AlmostEqual(reported, f.experience.reward)
  {
    assert Obj(e.result) == Obj(f.result);
    var a, b := e.experience.experienceId, f.experience.experienceId;
    assert (ExperienceRefPrefix + a)[|ExperienceRefPrefix|..] == a;
    assert (ExperienceRefPrefix + b)[|ExperienceRefPrefix|..] == b;
    assert ValueFloat(e.result, "reward") == Some(ValueFloat(e.result, "reward").value);
  }

  function PredictStatsAfter(before: Stats, action: string, reward: real): Result<Stats, LearnError>
    requires action in before ==> before[action].count >= 0
  {
    if action !in before then Err(ActionNotInPolicy)
    else Ok(before[action := Observed(before[action], reward)])
  }

  /** The stats the memory holds for the experience's context. */
  function CurrentStats(s: Settings, m: Memory, e: Evidence): Stats {
    Lookup(s.actions, m.learned, s.keyOf(e.experience.context)).stats
  }

  ghost predicate MemoryOk(s: Settings, m: Memory) {
    LearnedOk(s.actions, m.learned)
  }

  /** The transition check shared by Apply and replay: claimed stats before and after against the memory's. */
  function TransitionError(s: Settings, m: Memory, e: Evidence): Outcome<LearnError>
    requires MemoryOk(s, m)
  {
    LookupOk(s.actions, m.learned, s.keyOf(e.experience.context));
    var current, exp := CurrentStats(s, m, e), e.experience;
    if !SameStats(current, exp.statsBefore) then Fail(StateBeforeMismatch)
    else
      match PredictStatsAfter(current, exp.selectedAction, exp.reward)
      case Err(x) => Fail(x)
      case Ok(predicted) => if SameStats(predicted, exp.statsAfter) then Pass else Fail(StateAfterMismatch)
  }

  // ---- one accepted measurement ----

  function NewEntry(m: Memory, e: Evidence, appliedAt: string): DurableEntry {
    var material := EntryMaterial(DurableEntryProtocol, m.sequence + 1, e, Sha256(e.receipt), Sha256(e.experience),
                                  m.head, appliedAt);
    DurableEntry(material, Sha256(material))
  }

  /** The memory once `entry` has been learned. */
  function Learn(s: Settings, m: Memory, entry: DurableEntry): Memory
    requires MemoryOk(s, m) && entry.material.evidence.experience.selectedAction in s.actions
  {
    var e, exp := entry.material.evidence, entry.material.evidence.experience;
    LookupOk(s.actions, m.learned, s.keyOf(exp.context));
    Memory(LearnedAfter(s.actions, m.learned, s.keyOf(exp.context), exp.selectedAction, exp.reward),
           m.receiptHashes[e.receipt.receiptId := entry.material.receiptHash],
           m.experienceHashes[exp.experienceId := entry.material.experienceHash],
           m.actionReceipts[exp.actionId := e.receipt.receiptId],
           entry.entryHash, entry.material.sequence)
  }

  lemma LearnOk(s: Settings, m: Memory, entry: DurableEntry)
    requires MemoryOk(s, m) && entry.material.evidence.experience.selectedAction in s.actions
    ensures MemoryOk(s, Learn(s, m, entry))
  {
    var exp := entry.material.evidence.experience;
    LearnedAfterOk(s.actions, m.learned, s.keyOf(exp.context), exp.selectedAction, exp.reward);
  }

  /** A passed transition check means the action is one the policy may learn about. */
  lemma TransitionAllowsAction(s: Settings, m: Memory, e: Evidence)
    requires MemoryOk(s, m) && TransitionError(s, m, e).Pass?
    ensures e.experience.selectedAction in s.actions
  {
    LookupOk(s.actions, m.learned, s.keyOf(e.experience.context));
  }

  // ---- replay ----

  /** The checks replay makes of one entry, in its order. */
  function EntryError(s: Settings, m: Memory, entry: DurableEntry): Outcome<LearnError>
    requires MemoryOk(s, m)
  {
    var material := entry.material;
    var e := material.evidence;
    if material.protocol != DurableEntryProtocol then Fail(EntryProtocolMismatch)
    else if material.sequence != m.sequence + 1 then Fail(SequenceMismatch)
    else if material.previousEntryHash != m.head then Fail(PredecessorMismatch)
    else if entry.entryHash != Sha256(material) then Fail(EntryHashMismatch)
    else if EvidenceError(s, e).Fail? then EvidenceError(s, e)
    else if material.receiptHash != Sha256(e.receipt) || material.experienceHash != Sha256(e.experience)
      then Fail(ContentAddressMismatch)
    else if e.receipt.receiptId in m.receiptHashes then Fail(ReceiptDuplicated)
    else if e.experience.experienceId in m.experienceHashes then Fail(ExperienceDuplicated)
    else if e.experience.actionId in m.actionReceipts then Fail(ActionDuplicated)
    else TransitionError(s, m, e)
  }

  /** One turn of replay's loop. */
  function ReplayEntry(s: Settings, m: Memory, entry: DurableEntry): (r: Result<Memory, LearnError>)
    requires MemoryOk(s, m)
    ensures r.Ok? <==> EntryError(s, m, entry).Pass?
    ensures r.Ok? ==> entry.material.evidence.experience.selectedAction in s.actions && r.value == Learn(s, m, entry)
    ensures r.Ok? ==> MemoryOk(s, r.value) && r.value.sequence == m.sequence + 1
  {
    match EntryError(s, m, entry)
    case Fail(x) => Err(x)
    case Pass =>
      TransitionAllowsAction(s, m, entry.material.evidence);
      LearnOk(s, m, entry);
      Ok(Learn(s, m, entry))
  }

  /** What opening a learner on `log` yields. */
  function Replay(s: Settings, log: Log): (r: Result<Memory, LearnError>)
    requires ValidActions(s.actions)
    ensures r.Ok? ==> MemoryOk(s, r.value) && r.value.sequence == |log|
    decreases |log|
  {
    if log == [] then Ok(Blank)
    else
      match Replay(s, log[..|log| - 1])
      case Err(x) => Err(x)
      case Ok(m) => ReplayEntry(s, m, log[|log| - 1])
  }

  // ---- Apply ----

  datatype Verdict = Rejected(error: LearnError) | Duplicate | Accepted

  /** Apply's decision about a measurement, in its order. */
  function Judge(s: Settings, m: Memory, e: Evidence): Verdict
    requires MemoryOk(s, m)
  {
    var receiptId, exp := e.receipt.receiptId, e.experience;
    if EvidenceError(s, e).Fail? then Rejected(EvidenceError(s, e).error)
    else if receiptId in m.receiptHashes then
      if && m.receiptHashes[receiptId] == Sha256(e.receipt)
         && exp.experienceId in m.experienceHashes && m.experienceHashes[exp.experienceId] == Sha256(exp)
         && exp.actionId in m.actionReceipts && m.actionReceipts[exp.actionId] == receiptId
      then Duplicate else Rejected(ReceiptConflict)
    else if exp.experienceId in m.experienceHashes then Rejected(ExperienceReused)
    else if exp.actionId in m.actionReceipts then Rejected(ActionReused)
    else
      match TransitionError(s, m, e)
      case Fail(x) => Rejected(x)
      case Pass => Accepted
  }

  /** What Apply accepts, replay accepts: the appended entry passes every check and is learned the same way. */
  lemma AcceptedEntryReplays(s: Settings, log: Log, m: Memory, e: Evidence, appliedAt: string)
    requires ValidActions(s.actions) && Replay(s, log) == Ok(m) && Judge(s, m, e).Accepted?
    ensures e.experience.selectedAction in s.actions
    ensures Replay(s, log + [NewEntry(m, e, appliedAt)]) == Ok(Learn(s, m, NewEntry(m, e, appliedAt)))
  {
    var entry := NewEntry(m, e, appliedAt);
    var longer := log + [entry];
    assert longer[..|longer| - 1] == log;
    TransitionAllowsAction(s, m, e);
    assert EntryError(s, m, entry).Pass?;
  }
}
