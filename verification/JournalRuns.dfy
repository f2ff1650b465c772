/**
  What holds of every history of a durable learner: accepted, duplicate and
  rejected measurements, crashes between the append and the memory update, and reopens.
 */
module JournalRuns {
  import opened Common
  import opened Bandit
  import opened ContextPolicy
  import opened Journal

  /** The file and the process memory. */
  datatype Learner = Learner(log: Log, memory: Memory)

  /** `Crash` stops Apply right after the append; the process then opens the file again. */
  datatype Event = Apply(evidence: Evidence, at: string) | Crash(evidence: Evidence, at: string) | Reopen

  /** Opening the file now would rebuild exactly this memory. */
  ghost predicate Sync(s: Settings, l: Learner) {
    ValidActions(s.actions) && Replay(s, l.log) == Ok(l.memory)
  }

  /** What learning `entry` does to everything but the policy tables. */
  ghost predicate Grown(m: Memory, entry: DurableEntry, m': Memory) {
    var e, exp := entry.material.evidence, entry.material.evidence.experience;
    && entry.entryHash == Sha256(entry.material) && entry.material.previousEntryHash == m.head
    && m'.head == entry.entryHash
    && entry.material.sequence == m.sequence + 1 == m'.sequence
    && exp.receiptId == e.receipt.receiptId && exp.actionId == e.receipt.actionId
    && e.receipt.receiptId !in m.receiptHashes
    && m'.receiptHashes == m.receiptHashes[e.receipt.receiptId := Sha256(e.receipt)]
    && exp.experienceId !in m.experienceHashes
    && m'.experienceHashes == m.experienceHashes[exp.experienceId := Sha256(exp)]
    && exp.actionId !in m.actionReceipts && m'.actionReceipts == m.actionReceipts[exp.actionId := e.receipt.receiptId]
  }

  /** What learning `entry` does to the policy tables. */
  ghost predicate Taught(s: Settings, m: Memory, entry: DurableEntry, m': Memory) {
    var exp := entry.material.evidence.experience;
    && LearnedOk(s.actions, m.learned) && exp.selectedAction in s.actions
    && TableOk(s.actions, Lookup(s.actions, m.learned, s.keyOf(exp.context)))
    && m'.learned == LearnedAfter(s.actions, m.learned, s.keyOf(exp.context), exp.selectedAction, exp.reward)
  }

  lemma PassedEntryGrows(s: Settings, m: Memory, entry: DurableEntry)
    requires MemoryOk(s, m) && EntryError(s, m, entry).Pass?
    ensures entry.material.evidence.experience.selectedAction in s.actions
    ensures Grown(m, entry, Learn(s, m, entry)) && Taught(s, m, entry, Learn(s, m, entry))
  {
    TransitionAllowsAction(s, m, entry.material.evidence);
    LookupOk(s.actions, m.learned, s.keyOf(entry.material.evidence.experience.context));
  }

  lemma ReplayPeels(s: Settings, log: Log, m': Memory) returns (m: Memory)
    requires ValidActions(s.actions) && log != [] && Replay(s, log) == Ok(m')
    ensures Replay(s, log[..|log| - 1]) == Ok(m) && MemoryOk(s, m) && ReplayEntry(s, m, log[|log| - 1]) == Ok(m')
  {
    m := Replay(s, log[..|log| - 1]).value;
  }

  lemma ReplayLast(s: Settings, log: Log, m': Memory) returns (m: Memory)
    requires ValidActions(s.actions) && log != [] && Replay(s, log) == Ok(m')
    ensures Replay(s, log[..|log| - 1]) == Ok(m)
    ensures Grown(m, log[|log| - 1], m') && Taught(s, m, log[|log| - 1], m')
  {
    m := ReplayPeels(s, log, m');
    PassedEntryGrows(s, m, log[|log| - 1]);
  }

  /** One entry learned. */
  ghost predicate Step(s: Settings, m: Memory, entry: DurableEntry, m': Memory) {
    Grown(m, entry, m') && Taught(s, m, entry, m')
  }

  /** The memories a replay passes through. */
  ghost predicate Trace(s: Settings, log: Log, ms: seq<Memory>) {
    && |ms| == |log| + 1 && ms[0] == Blank
    && forall i | 0 <= i < |log| :: Step(s, ms[i], log[i], ms[i + 1])
  }

  lemma TraceExtends(s: Settings, log: Log, ms: seq<Memory>, m: Memory)
    requires log != [] && Trace(s, log[..|log| - 1], ms) && Step(s, ms[|log| - 1], log[|log| - 1], m)
    ensures Trace(s, log, ms + [m])
  {
    var init, longer := log[..|log| - 1], ms + [m];
    forall i | 0 <= i < |log| ensures Step(s, longer[i], log[i], longer[i + 1]) {
      if i < |init| { assert init[i] == log[i] && Step(s, ms[i], init[i], ms[i + 1]); }
    }
  }

  lemma {:induction false} ReplayTrace(s: Settings, log: Log, m: Memory) returns (ms: seq<Memory>)
    requires ValidActions(s.actions) && Replay(s, log) == Ok(m)
    ensures Trace(s, log, ms) && ms[|log|] == m
    decreases |log|
  {
    if log == [] {
      ms := [Blank];
    } else {
      var n := ReplayLast(s, log, m);
      var shorter := ReplayTrace(s, log[..|log| - 1], n);
      TraceExtends(s, log, shorter, m);
      ms := shorter + [m];
    }
  }

  lemma TracePrefix(s: Settings, log: Log, ms: seq<Memory>)
    requires Trace(s, log, ms) && log != []
    ensures Trace(s, log[..|log| - 1], ms[..|log|])
    ensures Step(s, ms[|log| - 1], log[|log| - 1], ms[|log|])
  {
  }

  /** Applying an accepted measurement: the log grows by its entry, and the memory is the one replay builds. */
  ghost function Completed(s: Settings, l: Learner, e: Evidence, at: string): (r: Learner)
    requires Sync(s, l)
    ensures Sync(s, r) && l.log <= r.log
    ensures Judge(s, l.memory, e).Accepted? ==> r.log == l.log + [NewEntry(l.memory, e, at)]
    ensures !Judge(s, l.memory, e).Accepted? ==> r == l
  {
    if Judge(s, l.memory, e).Accepted? then
      AcceptedEntryReplays(s, l.log, l.memory, e, at);
      Learner(l.log + [NewEntry(l.memory, e, at)], Learn(s, l.memory, NewEntry(l.memory, e, at)))
    else l
  }

  /** The same, stopped after the append: the file has the entry, and a new process reads it. */
  ghost function Crashed(s: Settings, l: Learner, e: Evidence, at: string): (r: Learner)
    requires Sync(s, l)
    ensures Sync(s, r) && l.log <= r.log
  {
    if Judge(s, l.memory, e).Accepted? then
      AcceptedEntryReplays(s, l.log, l.memory, e, at);
      var log := l.log + [NewEntry(l.memory, e, at)];
      Learner(log, Replay(s, log).value)
    else l
  }

  ghost function Next(s: Settings, l: Learner, event: Event): (r: Learner)
    requires Sync(s, l)
    ensures Sync(s, r) && l.log <= r.log
  {
    match event
    case Apply(e, at) => Completed(s, l, e, at)
    case Crash(e, at) => Crashed(s, l, e, at)
    case Reopen => Learner(l.log, Replay(s, l.log).value)
  }

  ghost function Run(s: Settings, l: Learner, events: seq<Event>): (r: Learner)
    requires Sync(s, l)
    ensures Sync(s, r) && l.log <= r.log
    decreases |events|
  {
    if events == [] then l else Run(s, Next(s, l, events[0]), events[1..])
  }

  /** A learner opened on no file. */
  const NewLearner := Learner([], Blank)

  lemma CrashIsCompletion(s: Settings, l: Learner, e: Evidence, at: string)
    requires Sync(s, l)
    ensures Crashed(s, l, e, at) == Completed(s, l, e, at)
  {
    assert Sync(s, Completed(s, l, e, at)) && Sync(s, Crashed(s, l, e, at));
    assert Crashed(s, l, e, at).log == Completed(s, l, e, at).log;
  }

  /**
    Reopening at any point of any history is accepted and changes nothing, and a
    crash after the append ends where the completed call would have.
   */
  lemma ReopenRebuildsMemory(s: Settings, events: seq<Event>, l: Learner, e: Evidence, at: string)
    requires ValidActions(s.actions) && l == Run(s, NewLearner, events)
    ensures Replay(s, l.log) == Ok(l.memory) && Next(s, l, Reopen) == l
    ensures Next(s, l, Crash(e, at)) == Next(s, l, Apply(e, at))
    ensures !Judge(s, l.memory, e).Accepted? ==> Next(s, l, Apply(e, at)) == l
  {
    CrashIsCompletion(s, l, e, at);
  }

  /** The event appends an entry. */
  ghost predicate Accepts(s: Settings, l: Learner, event: Event)
    requires Sync(s, l)
  {
    !event.Reopen? && Judge(s, l.memory, event.evidence).Accepted?
  }

  lemma NextAppendsIffAccepted(s: Settings, l: Learner, event: Event)
    requires Sync(s, l)
    ensures if Accepts(s, l, event) then |Next(s, l, event).log| == |l.log| + 1 else Next(s, l, event) == l
  {
    if event.Crash? { CrashIsCompletion(s, l, event.evidence, event.at); }
  }

  /** A history leaves the learner as it was exactly when none of its events would have been accepted at the start. */
  lemma {:induction false} UnchangedIffNothingAccepted(s: Settings, l: Learner, events: seq<Event>)
    requires Sync(s, l)
    ensures Run(s, l, events).log == l.log <==> forall i | 0 <= i < |events| :: !Accepts(s, l, events[i])
    ensures Run(s, l, events).log == l.log ==> Run(s, l, events) == l
    decreases |events|
  {
    hide Sync, Accepts, Next;
    if events != [] {
      NextAppendsIffAccepted(s, l, events[0]);
      var rest := events[1..];
      assert forall i | 0 < i < |events| :: events[i] == rest[i - 1];
      if !Accepts(s, l, events[0]) {
        UnchangedIffNothingAccepted(s, l, rest);
        assert forall i | 0 <= i < |rest| :: rest[i] == events[i + 1];
      }
    }
  }

  // ---- idempotence ----

  /** Every identity of `a` is known to `b` with the same content. */
  ghost predicate IdentitiesKept(a: Memory, b: Memory) {
    && (forall k | k in a.receiptHashes :: k in b.receiptHashes && b.receiptHashes[k] == a.receiptHashes[k])
    && (forall k | k in a.experienceHashes :: k in b.experienceHashes && b.experienceHashes[k] == a.experienceHashes[k])
    && (forall k | k in a.actionReceipts :: k in b.actionReceipts && b.actionReceipts[k] == a.actionReceipts[k])
  }

  lemma GrownKeepsIdentities(m: Memory, entry: DurableEntry, m': Memory)
    requires Grown(m, entry, m')
    ensures IdentitiesKept(m, m')
  {
  }

  lemma NextGrows(s: Settings, l: Learner, event: Event)
    requires Sync(s, l)
    ensures var r := Next(s, l, event); r == l || (|r.log| > 0 && Grown(l.memory, r.log[|r.log| - 1], r.memory))
  {
    var r := Next(s, l, event);
    if !event.Reopen? && Judge(s, l.memory, event.evidence).Accepted? {
      if event.Crash? { CrashIsCompletion(s, l, event.evidence, event.at); }
      assert r.log == l.log + [NewEntry(l.memory, event.evidence, event.at)];
      var m := ReplayLast(s, r.log, r.memory);
      assert r.log[..|r.log| - 1] == l.log;
    }
  }

  lemma {:induction false} RunKeepsIdentities(s: Settings, l: Learner, events: seq<Event>)
    requires Sync(s, l)
    ensures IdentitiesKept(l.memory, Run(s, l, events).memory)
    decreases |events|
  {
    if events != [] {
      var n := Next(s, l, events[0]);
      NextGrows(s, l, events[0]);
      if n != l { GrownKeepsIdentities(l.memory, n.log[|n.log| - 1], n.memory); }
      RunKeepsIdentities(s, n, events[1..]);
    }
  }

  /** The measurement's three identities are recorded with its own content. */
  ghost predicate Recorded(m: Memory, e: Evidence) {
    && e.receipt.receiptId in m.receiptHashes && m.receiptHashes[e.receipt.receiptId] == Sha256(e.receipt)
    && e.experience.experienceId in m.experienceHashes
    && m.experienceHashes[e.experience.experienceId] == Sha256(e.experience)
    && e.experience.actionId in m.actionReceipts && m.actionReceipts[e.experience.actionId] == e.receipt.receiptId
  }

  lemma AcceptedIsRecorded(s: Settings, l: Learner, e: Evidence, at: string, later: seq<Event>)
    requires Sync(s, l) && Judge(s, l.memory, e).Accepted?
    ensures Recorded(Run(s, Next(s, l, Apply(e, at)), later).memory, e)
    ensures EvidenceError(s, e).Pass?
  {
    var n := Next(s, l, Apply(e, at));
    assert n.log == l.log + [NewEntry(l.memory, e, at)];
    var m := ReplayLast(s, n.log, n.memory);
    assert Recorded(n.memory, e);
    RunKeepsIdentities(s, n, later);
  }

  lemma RecordedIsDuplicate(s: Settings, m: Memory, e: Evidence)
    requires MemoryOk(s, m) && EvidenceError(s, e).Pass?
    ensures Judge(s, m, e).Duplicate? <==> Recorded(m, e)
  {
  }

  /** Once a measurement has been accepted it is a duplicate for ever, and applying it again changes nothing. */
  lemma AcceptedStaysDuplicate(s: Settings, l: Learner, e: Evidence, at: string, later: seq<Event>, m: Learner,
                               again: string)
    requires Sync(s, l) && Judge(s, l.memory, e).Accepted? && m == Run(s, Next(s, l, Apply(e, at)), later)
    ensures Judge(s, m.memory, e).Duplicate? && Next(s, m, Apply(e, again)) == m
  {
    AcceptedIsRecorded(s, l, e, at, later);
    RecordedIsDuplicate(s, m.memory, e);
  }

  /**
    Identities are never shared: distinct recorded experiences have distinct
    receipts and actions, and every recorded receipt and action belongs to one.
   */
  ghost predicate Tied(m: Memory) {
    && (forall k | k in m.receiptHashes :: m.receiptHashes[k].Sha256? && m.receiptHashes[k].material.receiptId == k)
    && (forall k | k in m.experienceHashes :: KnownExperience(m, k))
    && (forall j, k | j in m.experienceHashes && k in m.experienceHashes && j != k :: Apart(m, j, k))
  }

  ghost predicate KnownExperience(m: Memory, k: string)
    requires k in m.experienceHashes
  {
    && m.experienceHashes[k].Sha256?
    && var exp := m.experienceHashes[k].material;
       && exp.experienceId == k && exp.receiptId in m.receiptHashes
       && exp.actionId in m.actionReceipts && m.actionReceipts[exp.actionId] == exp.receiptId
  }

  ghost predicate Apart(m: Memory, j: string, k: string)
    requires j in m.experienceHashes && k in m.experienceHashes
  {
    m.experienceHashes[j].Sha256? && m.experienceHashes[k].Sha256? ==>
      && m.experienceHashes[j].material.receiptId != m.experienceHashes[k].material.receiptId
      && m.experienceHashes[j].material.actionId != m.experienceHashes[k].material.actionId
  }

  lemma GrownKeepsTied(m: Memory, entry: DurableEntry, m': Memory)
    requires Tied(m) && Grown(m, entry, m')
    ensures Tied(m')
  {
    forall k | k in m'.experienceHashes ensures KnownExperience(m', k) {
      if k in m.experienceHashes { assert KnownExperience(m, k); }
    }
    forall j, k | j in m'.experienceHashes && k in m'.experienceHashes && j != k ensures Apart(m', j, k) {
      if j in m.experienceHashes { assert KnownExperience(m, j); }
      if k in m.experienceHashes { assert KnownExperience(m, k); }
      if j in m.experienceHashes && k in m.experienceHashes { assert Apart(m, j, k); }
    }
  }

  lemma {:induction false} ReplayTied(s: Settings, log: Log, m: Memory)
    requires ValidActions(s.actions) && Replay(s, log) == Ok(m)
    ensures Tied(m)
    decreases |log|
  {
    if log != [] {
      var n := ReplayLast(s, log, m);
      ReplayTied(s, log[..|log| - 1], n);
      GrownKeepsTied(n, log[|log| - 1], m);
    }
  }

  /** Of two recorded measurements that share any identity, receipt and experience are the same. */
  lemma SharedIdentitySameEvidence(m: Memory, e: Evidence, f: Evidence)
    requires Tied(m) && Recorded(m, e) && Recorded(m, f)
    requires e.experience.receiptId == e.receipt.receiptId && f.experience.receiptId == f.receipt.receiptId
    requires || f.receipt.receiptId == e.receipt.receiptId || f.experience.experienceId == e.experience.experienceId
             || f.experience.actionId == e.experience.actionId
    ensures f.receipt == e.receipt && f.experience == e.experience
  {
    var j, k := e.experience.experienceId, f.experience.experienceId;
    assert KnownExperience(m, j) && KnownExperience(m, k);
    assert j != k ==> Apart(m, j, k);
  }

  /** Other evidence under an identity already used is rejected for ever. */
  lemma ConflictStaysRejected(s: Settings, l: Learner, e: Evidence, at: string, later: seq<Event>, m: Learner,
                              f: Evidence)
    requires Sync(s, l) && Judge(s, l.memory, e).Accepted? && m == Run(s, Next(s, l, Apply(e, at)), later)
    requires f.receipt != e.receipt || f.experience != e.experience
    requires || f.receipt.receiptId == e.receipt.receiptId || f.experience.experienceId == e.experience.experienceId
             || f.experience.actionId == e.experience.actionId
    ensures Judge(s, m.memory, f).Rejected?
  {
    AcceptedIsRecorded(s, l, e, at, later);
    ReplayTied(s, m.log, m.memory);
    if EvidenceError(s, f).Pass? {
      RecordedIsDuplicate(s, m.memory, f);
      if Recorded(m.memory, f) {
        SharedIdentitySameEvidence(m.memory, e, f);
        assert false;
      }
      UsedIdentityNotAccepted(s, m.memory, e, f);
    }
  }

  lemma UsedIdentityNotAccepted(s: Settings, m: Memory, e: Evidence, f: Evidence)
    requires MemoryOk(s, m) && Recorded(m, e)
    requires || f.receipt.receiptId == e.receipt.receiptId || f.experience.experienceId == e.experience.experienceId
             || f.experience.actionId == e.experience.actionId
    ensures !Judge(s, m, f).Accepted?
  {
  }

  // ---- the head commits to the whole history ----

  lemma {:induction false} SameHeadSameTrace(s: Settings, a: Log, ms: seq<Memory>, t: Settings, b: Log, ns: seq<Memory>)
    requires Trace(s, a, ms) && Trace(t, b, ns) && ms[|a|].head == ns[|b|].head
    ensures a == b
    decreases |a|
  {
    if a != [] { TracePrefix(s, a, ms); }
    if b != [] { TracePrefix(t, b, ns); }
    if a != [] && b != [] {
      SameHeadSameLast(ms[|a| - 1], a[|a| - 1], ms[|a|], ns[|b| - 1], b[|b| - 1], ns[|b|]);
      SameHeadSameTrace(s, a[..|a| - 1], ms[..|a|], t, b[..|b| - 1], ns[..|b|]);
      assert a == a[..|a| - 1] + [a[|a| - 1]] && b == b[..|b| - 1] + [b[|b| - 1]];
    }
  }

  /** Two journals that replay to the same head are the same journal, even under different settings. */
  lemma HeadCommitsToHistory(s: Settings, a: Log, m: Memory, t: Settings, b: Log, n: Memory)
    requires ValidActions(s.actions) && ValidActions(t.actions)
    requires Replay(s, a) == Ok(m) && Replay(t, b) == Ok(n) && m.head == n.head
    ensures a == b
  {
    var ms := ReplayTrace(s, a, m);
    var ns := ReplayTrace(t, b, n);
    SameHeadSameTrace(s, a, ms, t, b, ns);
  }

  lemma SameHeadSameLast(m: Memory, x: DurableEntry, m': Memory, n: Memory, y: DurableEntry, n': Memory)
    requires Grown(m, x, m') && Grown(n, y, n') && m'.head == n'.head
    ensures x == y && m.head == n.head
  {
    assert Sha256(x.material) == Sha256(y.material);
  }

  // ---- the learned statistics are the journal's ----

  predicate For(s: Settings, entry: DurableEntry, key: string, action: string) {
    var exp := entry.material.evidence.experience;
    s.keyOf(exp.context) == key && exp.selectedAction == action
  }

  /** How many entries are for this context key and action. */
  function CountOf(s: Settings, log: Log, key: string, action: string): int {
    if log == [] then 0
    else CountOf(s, log[..|log| - 1], key, action) + (if For(s, log[|log| - 1], key, action) then 1 else 0)
  }

  /** The sum of their rewards. */
  function RewardsOf(s: Settings, log: Log, key: string, action: string): real {
    if log == [] then 0.0
    else RewardsOf(s, log[..|log| - 1], key, action)
         + (if For(s, log[|log| - 1], key, action) then log[|log| - 1].material.evidence.experience.reward else 0.0)
  }

  lemma MeanTimesCount(stat: ActionStat, reward: real)
    requires stat.count >= 0
    ensures var after := Observed(stat, reward);
            after.count as real * after.mean == stat.count as real * stat.mean + reward
  {
    var n := (stat.count + 1) as real;
    var q := (reward - stat.mean) / n;
    assert n * q == reward - stat.mean;
    assert n * (stat.mean + q) == n * stat.mean + n * q;
    assert n * stat.mean == stat.count as real * stat.mean + stat.mean;
  }

  lemma TaughtLookup(s: Settings, m: Memory, entry: DurableEntry, m': Memory, key: string, action: string)
    requires Taught(s, m, entry, m') && action in s.actions
    ensures var exp := entry.material.evidence.experience;
            var before, after := Lookup(s.actions, m.learned, key), Lookup(s.actions, m'.learned, key);
            && TableOk(s.actions, before) && TableOk(s.actions, after)
            && after.stats[action] == if For(s, entry, key, action) then Observed(before.stats[action], exp.reward)
              else before.stats[action]
  {
    var exp := entry.material.evidence.experience;
    LookupOk(s.actions, m.learned, key);
    LearnedAfterOk(s.actions, m.learned, s.keyOf(exp.context), exp.selectedAction, exp.reward);
    LookupOk(s.actions, m'.learned, key);
    ObservedElsewhere(s.actions, m.learned, s.keyOf(exp.context), exp.selectedAction, exp.reward, key);
  }

  /** `stat` counts the entries for this key and action, and its mean is their average reward. */
  ghost predicate Summarises(s: Settings, log: Log, key: string, action: string, stat: ActionStat) {
    stat.count == CountOf(s, log, key, action) && stat.count as real * stat.mean == RewardsOf(s, log, key, action)
  }

  lemma SummaryNext(s: Settings, log: Log, key: string, action: string, stat: ActionStat)
    requires log != [] && stat.count >= 0 && Summarises(s, log[..|log| - 1], key, action, stat)
    ensures Summarises(s, log, key, action,
                       if For(s, log[|log| - 1], key, action)
                       then Observed(stat, log[|log| - 1].material.evidence.experience.reward) else stat)
  {
    MeanTimesCount(stat, log[|log| - 1].material.evidence.experience.reward);
  }

  lemma {:induction false} TraceStats(s: Settings, log: Log, ms: seq<Memory>, key: string, action: string, t: Table)
    requires ValidActions(s.actions) && Trace(s, log, ms) && action in s.actions
    requires t == Lookup(s.actions, ms[|log|].learned, key)
    ensures TableOk(s.actions, t) && Summarises(s, log, key, action, t.stats[action])
    decreases |log|
  {
    if log == [] {
      LookupOk(s.actions, map[], key);
    } else {
      TracePrefix(s, log, ms);
      var before := Lookup(s.actions, ms[|log| - 1].learned, key);
      TraceStats(s, log[..|log| - 1], ms[..|log|], key, action, before);
      TaughtLookup(s, ms[|log| - 1], log[|log| - 1], ms[|log|], key, action);
      SummaryNext(s, log, key, action, before.stats[action]);
    }
  }

  /** Count is the number of journal entries, and count times mean is exactly the sum of their rewards. */
  lemma StatsAreTheJournals(s: Settings, log: Log, m: Memory, key: string, action: string, t: Table)
    requires ValidActions(s.actions) && Replay(s, log) == Ok(m) && action in s.actions
    requires t == Lookup(s.actions, m.learned, key)
    ensures TableOk(s.actions, t)
    ensures t.stats[action].count == CountOf(s, log, key, action)
    ensures t.stats[action].count as real * t.stats[action].mean == RewardsOf(s, log, key, action)
  {
    var ms := ReplayTrace(s, log, m);
    TraceStats(s, log, ms, key, action, t);
  }

  // ---- what a journal that replays has in it ----

  lemma {:induction false} ReplayPrefix(s: Settings, log: Log, n: nat)
    requires ValidActions(s.actions) && Replay(s, log).Ok? && n <= |log|
    ensures Replay(s, log[..n]).Ok?
    decreases |log|
  {
    hide ReplayEntry, MemoryOk;
    if n == |log| {
      assert log[..n] == log;
    } else {
      assert log[..|log| - 1][..n] == log[..n];
      ReplayPrefix(s, log[..|log| - 1], n);
    }
  }

  /** The memory before entry i, and that the entry passed every check against it. */
  lemma EntryPassed(s: Settings, log: Log, i: nat) returns (m: Memory, m': Memory)
    requires ValidActions(s.actions) && Replay(s, log).Ok? && i < |log|
    ensures Replay(s, log[..i]) == Ok(m) && Replay(s, log[..i + 1]) == Ok(m')
    ensures MemoryOk(s, m) && EntryError(s, m, log[i]).Pass?
    ensures log[i].material.evidence.experience.selectedAction in s.actions && m' == Learn(s, m, log[i])
  {
    hide EntryError, Learn, MemoryOk;
    ReplayPrefix(s, log, i + 1);
    m' := Replay(s, log[..i + 1]).value;
    m := ReplayPeels(s, log[..i + 1], m');
    assert log[..i + 1][..i] == log[..i] && log[..i + 1][i] == log[i];
  }

  /** Every entry of a journal that replays is a succeeded, hashed measurement of an allowed action. */
  lemma EveryEntryIsMeasured(s: Settings, log: Log, i: nat)
    requires ValidActions(s.actions) && Replay(s, log).Ok? && i < |log|
    ensures var e := log[i].material.evidence;
            ReceiptOk(e) && ExperienceOk(s, e) && e.experience.selectedAction in s.actions
    ensures log[i].material.protocol == DurableEntryProtocol && log[i].material.sequence == i + 1
  {
    var m, _ := EntryPassed(s, log, i);
    EntryPassedMeans(s, m, log[i]);
  }

  lemma EntryPassedMeans(s: Settings, m: Memory, entry: DurableEntry)
    requires MemoryOk(s, m) && EntryError(s, m, entry).Pass?
    ensures ReceiptOk(entry.material.evidence) && ExperienceOk(s, entry.material.evidence)
    ensures entry.material.protocol == DurableEntryProtocol && entry.material.sequence == m.sequence + 1
    ensures TransitionError(s, m, entry.material.evidence).Pass?
  {
    hide MemoryOk, ReceiptOk, ExperienceOk, EvidenceError, TransitionError;
    EvidencePassesIff(s, entry.material.evidence);
  }

  ghost predicate MeanOf(count: int, rewards: real, mean: real) {
    if count == 0 then mean == 0.0 else count as real * mean == rewards
  }

  /** The claimed count is exact, and the claimed mean is the average up to the tolerance. */
  ghost predicate ClaimedStat(claimed: ActionStat, count: int, rewards: real) {
    claimed.count == count && exists mean :: MeanOf(count, rewards, mean) && AlmostEqual(mean, claimed.mean)
  }

  /** `claimed` are the counts and averages of the journal's entries for this key. */
  ghost predicate ClaimedFrom(s: Settings, log: Log, key: string, claimed: Stats) {
    && claimed.Keys == (set a | a in s.actions)
    && forall a | a in s.actions :: ClaimedStat(claimed[a], CountOf(s, log, key, a), RewardsOf(s, log, key, a))
  }

  lemma OneStatClaimed(stat: ActionStat, claimed: ActionStat, count: int, rewards: real)
    requires stat.count == count == claimed.count && stat.count as real * stat.mean == rewards
    requires (stat.count == 0 ==> stat == Untested) && AlmostEqual(stat.mean, claimed.mean)
    ensures ClaimedStat(claimed, count, rewards)
  {
    hide AlmostEqual;
    assert MeanOf(count, rewards, stat.mean);
  }

  lemma ActionClaimed(s: Settings, log: Log, m: Memory, key: string, t: Table, claimed: Stats, a: string)
    requires ValidActions(s.actions) && Replay(s, log) == Ok(m) && t == Lookup(s.actions, m.learned, key)
    requires SameStats(t.stats, claimed) && a in s.actions
    ensures a in claimed && ClaimedStat(claimed[a], CountOf(s, log, key, a), RewardsOf(s, log, key, a))
  {
    hide Replay, CountOf, RewardsOf, ClaimedStat, AlmostEqual, Lookup, MemoryOk, LearnedOk;
    StatsAreTheJournals(s, log, m, key, a, t);
    OneStatClaimed(t.stats[a], claimed[a], CountOf(s, log, key, a), RewardsOf(s, log, key, a));
  }

  lemma SameStatsClaimed(s: Settings, log: Log, m: Memory, key: string, claimed: Stats)
    requires ValidActions(s.actions) && Replay(s, log) == Ok(m)
    requires SameStats(Lookup(s.actions, m.learned, key).stats, claimed)
    ensures ClaimedFrom(s, log, key, claimed)
  {
    var t := Lookup(s.actions, m.learned, key);
    assert TableOk(s.actions, t) by { LookupOk(s.actions, m.learned, key); }
    assert claimed.Keys == t.stats.Keys;
    hide Replay, CountOf, RewardsOf, ClaimedStat, SameStats, Lookup, MemoryOk, TableOk, LearnedOk;
    forall a | a in s.actions
      ensures ClaimedStat(claimed[a], CountOf(s, log, key, a), RewardsOf(s, log, key, a))
    {
      ActionClaimed(s, log, m, key, t, claimed, a);
    }
  }

  /** The statistics each entry claims, before and after it, are those of the journal up to it. */
  lemma ClaimsAreTheJournals(s: Settings, log: Log, i: nat)
    requires ValidActions(s.actions) && Replay(s, log).Ok? && i < |log|
    ensures var exp := log[i].material.evidence.experience;
            && ClaimedFrom(s, log[..i], s.keyOf(exp.context), exp.statsBefore)
            && ClaimedFrom(s, log[..i + 1], s.keyOf(exp.context), exp.statsAfter)
  {
    var m, m' := EntryPassed(s, log, i);
    var exp := log[i].material.evidence.experience;
    EntryPassedMeans(s, m, log[i]);
    TransitionMeans(s, m, log[i]);
    SameStatsClaimed(s, log[..i], m, s.keyOf(exp.context), exp.statsBefore);
    SameStatsClaimed(s, log[..i + 1], m', s.keyOf(exp.context), exp.statsAfter);
  }

  lemma TransitionMeans(s: Settings, m: Memory, entry: DurableEntry)
    requires MemoryOk(s, m) && TransitionError(s, m, entry.material.evidence).Pass?
    requires entry.material.evidence.experience.selectedAction in s.actions
    ensures var exp := entry.material.evidence.experience;
            && SameStats(Lookup(s.actions, m.learned, s.keyOf(exp.context)).stats, exp.statsBefore)
            && SameStats(Lookup(s.actions, Learn(s, m, entry).learned, s.keyOf(exp.context)).stats, exp.statsAfter)
  {
    hide SameStats, Observed;
    LookupOk(s.actions, m.learned, s.keyOf(entry.material.evidence.experience.context));
  }

  /** The number of rewards learned in all contexts together. */
  ghost function Totals(learned: Learned): int
    decreases |learned|
  {
    if learned == map[] then 0
    else
      var k :| k in learned;
      learned[k].total + Totals(learned - {k})
  }

  lemma {:induction false} TotalsSplit(learned: Learned, k: string)
    requires k in learned
    ensures Totals(learned) == learned[k].total + Totals(learned - {k})
    decreases |learned|
  {
    var j :| j in learned && Totals(learned) == learned[j].total + Totals(learned - {j});
    if j != k {
      TotalsSplit(learned - {j}, k);
      assert learned - {j} - {k} == learned - {k} - {j};
      TotalsSplit(learned - {k}, j);
    }
  }

  lemma TotalsAfter(learned: Learned, k: string, t: Table)
    ensures Totals(learned[k := t]) == Totals(learned) + t.total - (if k in learned then learned[k].total else 0)
  {
    TotalsSplit(learned[k := t], k);
    if k in learned {
      TotalsSplit(learned, k);
      assert learned[k := t] - {k} == learned - {k};
    } else {
      assert learned[k := t] - {k} == learned;
    }
  }

  lemma TaughtTotals(s: Settings, m: Memory, entry: DurableEntry, m': Memory)
    requires Taught(s, m, entry, m')
    ensures Totals(m'.learned) == Totals(m.learned) + 1 && LearnedOk(s.actions, m'.learned)
  {
    var exp := entry.material.evidence.experience;
    var key := s.keyOf(exp.context);
    LearnedAfterOk(s.actions, m.learned, key, exp.selectedAction, exp.reward);
    TotalsAfter(m.learned, key, TableAfter(Lookup(s.actions, m.learned, key), exp.selectedAction, exp.reward));
  }

  /** Totals over all contexts add up to the sequence number, and each context's total is the sum of its counts. */
  lemma {:induction false} TotalsAreTheSequence(s: Settings, log: Log, m: Memory)
    requires ValidActions(s.actions) && Replay(s, log) == Ok(m)
    ensures Totals(m.learned) == m.sequence == |log|
    ensures forall k | k in m.learned :: TableOk(s.actions, m.learned[k])
                                         && m.learned[k].total == SumCounts(s.actions, m.learned[k].stats)
    decreases |log|
  {
    if log != [] {
      var n := ReplayLast(s, log, m);
      TotalsAreTheSequence(s, log[..|log| - 1], n);
      TaughtTotals(s, n, log[|log| - 1], m);
    }
  }
}
