/**
  The durable learner itself (internal/adaptive/durable.go): the journal file, the
  in-memory policy and the identity maps, updated in the source's order.
 */
module DurableLearner {
  import opened Common
  import opened Bandit
  import opened ContextPolicy
  import opened Journal
  import JournalRuns
  import Metro

  /** What Apply reports about a measurement it did not refuse. */
  datatype ApplyResult = ApplyResult(
    applied: bool, duplicate: bool, sequence: int, entryHash: Digest<EntryMaterial>,
    receiptHash: Digest<Metro.Receipt>, experienceHash: Digest<Experience>)

  datatype OpenError = NoPath | BadPolicy(why: PolicyError) | BadJournal(line: int, problem: LearnError)

  class DurableLearner {
    const settings: Settings
    const policy: ContextualUCB1Policy
    var receiptHashes: map<string, Digest<Metro.Receipt>>
    var experienceHashes: map<string, Digest<Experience>>
    var actionReceipts: map<string, string>
    var lastEntryHash: Digest<EntryMaterial>
    var sequence: int
    var journal: Log

    ghost predicate Valid()
      reads this, policy, policy.Repr
    {
      && policy.settings == settings && policy !in policy.Repr && this !in policy.Repr && policy.Valid()
      && MemoryOk(settings, Memory())
    }

    /** The memory without the tables that hold no observation. */
    ghost function Memory(): Memory
      reads this, policy
    {
      Journal.Memory.Memory(policy.learned, receiptHashes, experienceHashes, actionReceipts, lastEntryHash, sequence)
    }

    /** The file and the memory agree. */
    ghost predicate InSync()
      reads this, policy
    {
      JournalRuns.Sync(settings, JournalRuns.Learner(journal, Memory()))
    }

    constructor (settings: Settings, log: Log)
      requires ValidActions(settings.actions)
      ensures Valid() && fresh(policy) && fresh(policy.Repr)
      ensures this.settings == settings && Memory() == Blank && journal == log
    {
      this.settings := settings;
      policy := new ContextualUCB1Policy(settings);
      receiptHashes, experienceHashes, actionReceipts := map[], map[], map[];
      lastEntryHash, sequence, journal := Empty, 0, log;
    }

    /** OpenDurableLearner on a path whose file holds `log`. */
    static method Open(path: string, settings: Settings, log: Log) returns (r: Result<DurableLearner, OpenError>)
      ensures r == Err(NoPath) <==> path == ""
      ensures r.Ok? <==> path != "" && ValidActions(settings.actions) && settings.exploration >= 0.0
                         && Replay(settings, log).Ok?
      ensures r.Ok? ==>
                && fresh(r.value) && fresh(r.value.policy) && fresh(r.value.policy.Repr) && r.value.Valid()
                && r.value.InSync()
      ensures r.Ok? ==>
                && r.value.settings == settings && r.value.journal == log
                && Replay(settings, log) == Ok(r.value.Memory())
    {
      hide Journal.EntryError, Journal.ReplayEntry, Journal.Learn;
      if path == "" { return Err(NoPath); }
      var ok := UCB1Policy.CheckActions(settings.actions, settings.exploration);
      if ok.Fail? { return Err(BadPolicy(ok.error)); }
      var d := new DurableLearner(settings, log);
      for i := 0 to |log|
        invariant d.Valid() && d.settings == settings && d.journal == log
        invariant fresh(d) && fresh(d.policy) && fresh(d.policy.Repr)
        invariant Replay(settings, log[..i]) == Ok(d.Memory())
      {
        ghost var before := d.Memory();
        var e := d.ReplayLine(log[i]);
        assert log[..i + 1][..i] == log[..i];
        if e.Fail? {
          ReplayStopsAt(settings, log, i, before);
          return Err(BadJournal(i + 1, e.error));
        }
      }
      assert log[..|log|] == log;
      return Ok(d);
    }

    /** One line of replay: every check, then the observation and the identities. */
    method ReplayLine(entry: DurableEntry) returns (r: Outcome<LearnError>)
      requires Valid()
      modifies this, policy, policy.Repr
      ensures Valid() && fresh(policy.Repr - old(policy.Repr)) && journal == old(journal)
      ensures ReplayEntry(settings, old(Memory()), entry) == if r.Pass? then Ok(Memory()) else Err(r.error)
    {
      hide Journal.EntryError, Journal.Learn;
      ghost var m := Memory();
      r := CheckLine(entry);
      assert Memory() == m;
      if r.Pass? {
        PassedEntryTeaches(settings, m, entry);
        r := Absorb(entry);
      }
    }

    /** Observe, then record the identities: what replay does with a line that passed. */
    method Absorb(entry: DurableEntry) returns (r: Outcome<LearnError>)
      requires Valid() && entry.material.evidence.experience.context.Complete()
      requires entry.material.evidence.experience.selectedAction in settings.actions
      modifies this`receiptHashes, this`experienceHashes, this`actionReceipts, this`sequence, this`lastEntryHash
      modifies policy, policy.Repr
      ensures Valid() && fresh(policy.Repr - old(policy.Repr))
      ensures r.Pass? && Memory() == Learn(settings, old(Memory()), entry)
    {
      ghost var m := Memory();
      r := Teach(entry.material.evidence.experience);
      if r.Fail? { return; }
      Record(entry);
      LearnIsTeachAndRecord(settings, m, entry);
    }

    method CheckLine(entry: DurableEntry) returns (r: Outcome<LearnError>)
      requires Valid()
      modifies policy`policies, policy`Repr
      ensures Valid() && fresh(policy.Repr - old(policy.Repr)) && old(policy.Repr) <= policy.Repr
      ensures Memory() == old(Memory()) && r == EntryError(settings, Memory(), entry)
    {
      var material := entry.material;
      var e := material.evidence;
      if material.protocol != DurableEntryProtocol { return Fail(EntryProtocolMismatch); }
      if material.sequence != sequence + 1 { return Fail(SequenceMismatch); }
      if material.previousEntryHash != lastEntryHash { return Fail(PredecessorMismatch); }
      if entry.entryHash != Sha256(material) { return Fail(EntryHashMismatch); }
      var evidence := EvidenceError(settings, e);
      if evidence.Fail? { return evidence; }
      if Sha256(e.receipt) != material.receiptHash || Sha256(e.experience) != material.experienceHash {
        return Fail(ContentAddressMismatch);
      }
      if e.receipt.receiptId in receiptHashes { return Fail(ReceiptDuplicated); }
      if e.experience.experienceId in experienceHashes { return Fail(ExperienceDuplicated); }
      if e.experience.actionId in actionReceipts { return Fail(ActionDuplicated); }
      r := CheckTransition(e);
    }

    /** Claimed stats before and after, against a snapshot of the policy. */
    method CheckTransition(e: Evidence) returns (r: Outcome<LearnError>)
      requires Valid() && EvidenceError(settings, e).Pass?
      modifies policy`policies, policy`Repr
      ensures Valid() && fresh(policy.Repr - old(policy.Repr)) && old(policy.Repr) <= policy.Repr
      ensures Memory() == old(Memory()) && r == TransitionError(settings, Memory(), e)
    {
      var exp := e.experience;
      var current := policy.SnapshotContext(exp.context);
      LookupOk(settings.actions, policy.learned, settings.keyOf(exp.context));
      assert current == Ok(CurrentStats(settings, Memory(), e));
      if !SameStats(current.value, exp.statsBefore) { return Fail(StateBeforeMismatch); }
      var predicted := PredictStatsAfter(current.value, exp.selectedAction, exp.reward);
      if predicted.Err? { return Fail(predicted.error); }
      if !SameStats(predicted.value, exp.statsAfter) { return Fail(StateAfterMismatch); }
      return Pass;
    }

    /** The policy half of learning: one observation. */
    method Teach(exp: Experience) returns (r: Outcome<LearnError>)
      requires Valid() && exp.context.Complete() && exp.selectedAction in settings.actions
      modifies policy, policy.Repr
      ensures Valid() && fresh(policy.Repr - old(policy.Repr)) && r.Pass?
      ensures TableOk(settings.actions, Lookup(settings.actions, old(policy.learned), settings.keyOf(exp.context)))
      ensures Memory() == old(Memory()).(learned :=
                LearnedAfter(settings.actions, old(policy.learned), settings.keyOf(exp.context), exp.selectedAction,
                             exp.reward))
    {
      LearnedAfterOk(settings.actions, policy.learned, settings.keyOf(exp.context), exp.selectedAction, exp.reward);
      var observed := policy.Observe(exp.context, exp.selectedAction, exp.reward);
      if observed.Fail? { return Fail(CommittedButObservationFailed); }
      return Pass;
    }

    /** recordIdentity, then the sequence number and the head. */
    method Record(entry: DurableEntry)
      requires Valid()
      modifies this`receiptHashes, this`experienceHashes, this`actionReceipts, this`sequence, this`lastEntryHash
      ensures Valid() && Memory() == Recorded(old(Memory()), entry)
    {
      var e := entry.material.evidence;
      receiptHashes := receiptHashes[e.receipt.receiptId := entry.material.receiptHash];
      experienceHashes := experienceHashes[e.experience.experienceId := entry.material.experienceHash];
      actionReceipts := actionReceipts[e.experience.actionId := e.receipt.receiptId];
      sequence := entry.material.sequence;
      lastEntryHash := entry.entryHash;
    }

    /**
      Learns one measurement.  The two errors that could follow the append are
      never returned, and file and memory are in sync again at the end.
     */
    method Apply(e: Evidence, appliedAt: string) returns (r: Result<ApplyResult, LearnError>)
      requires Valid() && InSync()
      modifies this, policy, policy.Repr
      ensures Valid() && InSync() && fresh(policy.Repr - old(policy.Repr))
      ensures JournalRuns.Learner(journal, Memory()) ==
                old(JournalRuns.Completed(settings, JournalRuns.Learner(journal, Memory()), e, appliedAt))
      ensures match old(Judge(settings, Memory(), e))
              case Rejected(why) => r == Err(why)
              case Duplicate => r == Ok(ApplyResult(false, true, sequence, lastEntryHash, Sha256(e.receipt),
                                                    Sha256(e.experience)))
              case Accepted =>
                r == Ok(ApplyResult(true, false, old(sequence) + 1, lastEntryHash, Sha256(e.receipt),
                                    Sha256(e.experience)))
    {
      hide Journal.Judge, Journal.Learn, Journal.NewEntry, Journal.Replay, JournalRuns.Completed, Predicts;
      ghost var m, log := Memory(), journal;
      var verdict := JudgeMeasurement(e);
      assert Memory() == m;
      match verdict
      case Rejected(why) => r := Err(why);
      case Duplicate => r := Ok(ApplyResult(false, true, sequence, lastEntryHash, Sha256(e.receipt),
                                            Sha256(e.experience)));
      case Accepted =>
        CompletedIsLearned(settings, log, m, e, appliedAt);
        AcceptedTeaches(settings, m, e);
        r := AppendAndCommit(e, appliedAt);
    }

    /** The append itself: only the file changes. */
    method Append(e: Evidence, appliedAt: string) returns (entry: DurableEntry)
      modifies this`journal
      ensures entry == NewEntry(Memory(), e, appliedAt) && journal == old(journal) + [entry]
    {
      var receiptHash, experienceHash := Sha256(e.receipt), Sha256(e.experience);
      var material := EntryMaterial(DurableEntryProtocol, sequence + 1, e, receiptHash, experienceHash, lastEntryHash,
                                    appliedAt);
      entry := DurableEntry(material, Sha256(material));
      journal := journal + [entry];
    }

    /** Append the entry, then commit it to memory. */
    method AppendAndCommit(e: Evidence, appliedAt: string) returns (r: Result<ApplyResult, LearnError>)
      requires Valid() && e.experience.context.Complete() && Predicts(settings, Memory(), e.experience)
      modifies this, policy, policy.Repr
      ensures Valid() && fresh(policy.Repr - old(policy.Repr))
      ensures var entry := NewEntry(old(Memory()), e, appliedAt);
              && journal == old(journal) + [entry] && e.experience.selectedAction in settings.actions
              && Memory() == Learn(settings, old(Memory()), entry)
              && r == Ok(ApplyResult(true, false, entry.material.sequence, entry.entryHash, Sha256(e.receipt),
                                     Sha256(e.experience)))
    {
      hide Journal.Learn, Journal.SameStats, TableAfter, TableOk;
      var entry := Append(e, appliedAt);
      var committed := Commit(entry);
      match committed
      case Pass =>
        var m := entry.material;
        r := Ok(ApplyResult(true, false, m.sequence, entry.entryHash, m.receiptHash, m.experienceHash));
      case Fail(why) => r := Err(why);
    }

    /** After the append: observe, compare with the claimed stats, record the identities. */
    method Commit(entry: DurableEntry) returns (r: Outcome<LearnError>)
      requires Valid()
      requires entry.material.evidence.experience.context.Complete()
               && Predicts(settings, Memory(), entry.material.evidence.experience)
      modifies this`receiptHashes, this`experienceHashes, this`actionReceipts, this`sequence, this`lastEntryHash
      modifies policy, policy.Repr
      ensures Valid() && fresh(policy.Repr - old(policy.Repr))
      ensures r.Pass? && Memory() == Learn(settings, old(Memory()), entry)
    {
      hide Journal.Learn, Journal.SameStats, TableAfter, LearnedAfter;
      ghost var m := Memory();
      var observed := Teach(entry.material.evidence.experience);
      if observed.Fail? { return observed; }
      var agreed := CheckAfter(entry.material.evidence.experience, m);
      if agreed.Fail? { return agreed; }
      Record(entry);
      LearnIsTeachAndRecord(settings, m, entry);
      return Pass;
    }

    /** Apply's refusals, in order. */
    method JudgeMeasurement(e: Evidence) returns (v: Verdict)
      requires Valid()
      modifies policy`policies, policy`Repr
      ensures Valid() && fresh(policy.Repr - old(policy.Repr)) && old(policy.Repr) <= policy.Repr
      ensures Memory() == old(Memory()) && v == Judge(settings, Memory(), e)
    {
      var exp := e.experience;
      var evidence := EvidenceError(settings, e);
      if evidence.Fail? { return Rejected(evidence.error); }
      if e.receipt.receiptId in receiptHashes {
        if && receiptHashes[e.receipt.receiptId] == Sha256(e.receipt)
           && exp.experienceId in experienceHashes && experienceHashes[exp.experienceId] == Sha256(exp)
           && exp.actionId in actionReceipts && actionReceipts[exp.actionId] == e.receipt.receiptId {
          return Duplicate;
        }
        return Rejected(ReceiptConflict);
      }
      if exp.experienceId in experienceHashes { return Rejected(ExperienceReused); }
      if exp.actionId in actionReceipts { return Rejected(ActionReused); }
      var transition := CheckTransition(e);
      if transition.Fail? { return Rejected(transition.error); }
      return Accepted;
    }

    /** The comparison after the append: it finds what CheckTransition predicted from memory `m`. */
    method CheckAfter(exp: Experience, ghost m: Memory) returns (r: Outcome<LearnError>)
      requires Valid() && exp.context.Complete() && Predicts(settings, m, exp)
      requires policy.learned == LearnedAfter(settings.actions, m.learned, settings.keyOf(exp.context),
                                              exp.selectedAction, exp.reward)
      modifies policy`policies, policy`Repr
      ensures Valid() && fresh(policy.Repr - old(policy.Repr)) && old(policy.Repr) <= policy.Repr
      ensures Memory() == old(Memory()) && r.Pass?
    {
      var after := policy.SnapshotContext(exp.context);
      if !SameStats(after.value, exp.statsAfter) { return Fail(CommittedButDiverged); }
      return Pass;
    }
  }

  lemma CompletedIsLearned(s: Settings, log: Log, m: Memory, e: Evidence, at: string)
    requires JournalRuns.Sync(s, JournalRuns.Learner(log, m)) && Judge(s, m, e).Accepted?
    ensures e.experience.selectedAction in s.actions
    ensures var after := JournalRuns.Learner(log + [NewEntry(m, e, at)], Learn(s, m, NewEntry(m, e, at)));
            && after == JournalRuns.Completed(s, JournalRuns.Learner(log, m), e, at) && JournalRuns.Sync(s, after)
            && after.memory.sequence == m.sequence + 1 == NewEntry(m, e, at).material.sequence
            && after.memory.head == NewEntry(m, e, at).entryHash
  {
    AcceptedEntryReplays(s, log, m, e, at);
  }

  /** The claimed stats after are the ones one more observation gives. */
  ghost predicate Predicts(s: Settings, m: Memory, exp: Experience) {
    && MemoryOk(s, m) && exp.selectedAction in s.actions
    && TableOk(s.actions, Lookup(s.actions, m.learned, s.keyOf(exp.context)))
    && SameStats(TableAfter(Lookup(s.actions, m.learned, s.keyOf(exp.context)), exp.selectedAction, exp.reward).stats,
                 exp.statsAfter)
  }

  lemma AcceptedTeaches(s: Settings, m: Memory, e: Evidence)
    requires MemoryOk(s, m) && Judge(s, m, e).Accepted?
    ensures e.experience.context.Complete() && Predicts(s, m, e.experience)
  {
    TransitionAllowsAction(s, m, e);
    LookupOk(s.actions, m.learned, s.keyOf(e.experience.context));
  }

  lemma PassedEntryTeaches(s: Settings, m: Memory, entry: DurableEntry)
    requires MemoryOk(s, m) && EntryError(s, m, entry).Pass?
    ensures entry.material.evidence.experience.context.Complete()
    ensures entry.material.evidence.experience.selectedAction in s.actions
  {
    TransitionAllowsAction(s, m, entry.material.evidence);
  }

  /** The identity half of learning an entry. */
  ghost function Recorded(m: Memory, entry: DurableEntry): Memory {
    var e := entry.material.evidence;
    m.(receiptHashes := m.receiptHashes[e.receipt.receiptId := entry.material.receiptHash],
       experienceHashes := m.experienceHashes[e.experience.experienceId := entry.material.experienceHash],
       actionReceipts := m.actionReceipts[e.experience.actionId := e.receipt.receiptId],
       head := entry.entryHash, sequence := entry.material.sequence)
  }

  lemma LearnIsTeachAndRecord(s: Settings, m: Memory, entry: DurableEntry)
    requires MemoryOk(s, m) && entry.material.evidence.experience.selectedAction in s.actions
    ensures var exp := entry.material.evidence.experience;
            && TableOk(s.actions, Lookup(s.actions, m.learned, s.keyOf(exp.context)))
            && Learn(s, m, entry) ==
                 Recorded(m.(learned := LearnedAfter(s.actions, m.learned, s.keyOf(exp.context), exp.selectedAction,
                                                     exp.reward)), entry)
  {
    LookupOk(s.actions, m.learned, s.keyOf(entry.material.evidence.experience.context));
  }

  /** A line replay refuses makes the whole journal unreadable. */
  lemma {:induction false} ReplayStopsAt(s: Settings, log: Log, i: nat, m: Memory)
    requires ValidActions(s.actions) && i < |log| && Replay(s, log[..i]) == Ok(m) && ReplayEntry(s, m, log[i]).Err?
    ensures Replay(s, log).Err?
    decreases |log|
  {
    hide Journal.EntryError, Journal.ReplayEntry, Journal.Learn;
    assert log[..i + 1][..i] == log[..i];
    if i + 1 == |log| {
      assert log[..i + 1] == log;
    } else {
      assert log[..|log| - 1][..i] == log[..i];
      ReplayStopsAt(s, log[..|log| - 1], i, m);
    }
  }
}
