/**
  A durable learner under a chain of signed authority (internal/adaptive/signed_authority.go,
  ChainedAuthorityLearner), and what its rotations commit to.
 */
module ChainedLearner {
  import opened Common
  import opened Ordering
  import opened Bandit
  import opened ContextPolicy
  import opened Journal
  import opened Authority
  import opened SignedAuthority
  import JournalRuns
  import Metro
  import D = DurableLearner

  datatype ChainedError = Unauthorised | Refused(why: LearnError)

  ghost predicate AllAuthorised(x: Codec, s: SignedGrant, log: Log) {
    forall i | 0 <= i < |log| :: Authorised(x, s, log[i].material.evidence)
  }

  function ActionsOf(s: SignedGrant): seq<string> {
    s.material.grant.material.allowedActions
  }

  lemma GrantedActionsValid(x: Codec, s: SignedGrant)
    requires SelfVerified(x, s)
    ensures ValidActions(ActionsOf(s))
  {
    AscendingDistinct(ActionsOf(s));
  }

  /** What opening `log` under chain `c` demands. */
  ghost predicate Openable(x: Codec, c: Chain, s: Settings, log: Log) {
    && VerifiedChain(x, c) && s.actions == ActionsOf(Current(c)) && ValidActions(s.actions) && s.exploration >= 0.0
    && AllAuthorised(x, Current(c), log) && Replay(s, log).Ok?
  }

  class ChainedAuthorityLearner {
    const codec: Codec
    const path: string
    const chain: Chain
    const durable: D.DurableLearner

    ghost predicate Valid()
      reads this, durable, durable.policy, durable.policy.Repr
    {
      durable.Valid() && durable.InSync() && Openable(codec, chain, durable.settings, durable.journal)
    }

    /** The file and the memory. */
    ghost function State(): JournalRuns.Learner
      reads durable, durable.policy
    {
      JournalRuns.Learner(durable.journal, durable.Memory())
    }

    constructor (codec: Codec, path: string, chain: Chain, durable: D.DurableLearner)
      requires durable.Valid() && durable.InSync() && Openable(codec, chain, durable.settings, durable.journal)
      ensures Valid() && this.codec == codec && this.path == path && this.chain == chain && this.durable == durable
    {
      this.codec, this.path, this.chain, this.durable := codec, path, chain, durable;
    }

    /** Every row of the file is checked against the current signed grant. */
    static method ValidateJournal(x: Codec, s: SignedGrant, log: Log) returns (ok: bool)
      requires SelfVerified(x, s)
      ensures ok <==> AllAuthorised(x, s, log)
    {
      for i := 0 to |log|
        invariant forall j | 0 <= j < i :: Authorised(x, s, log[j].material.evidence)
      {
        var bound := ValidateSignedEvidence(x, s, log[i].material.evidence);
        if !bound { return false; }
      }
      return true;
    }

    /** OpenChainedAuthorityLearner on a file holding `log`: it opens exactly the openable. */
    static method Open(x: Codec, path: string, log: Log, c: Chain, exploration: real, bonus: Bonus,
                       keyOf: Context -> string)
      returns (r: Option<ChainedAuthorityLearner>)
      ensures r.Some? <==>
                && path != "" && VerifiedChain(x, c) && exploration >= 0.0
                && (forall entry | entry in log :: Authorised(x, Current(c), entry.material.evidence))
                && ValidActions(ActionsOf(Current(c)))
                && Replay(Settings(ActionsOf(Current(c)), exploration, bonus, keyOf), log).Ok?
      ensures r.Some? <==> path != "" && VerifiedChain(x, c)
                           && Openable(x, c, Settings(ActionsOf(Current(c)), exploration, bonus, keyOf), log)
      ensures r.Some? ==> && fresh(r.value) && fresh(r.value.durable) && fresh(r.value.durable.policy)
                          && fresh(r.value.durable.policy.Repr) && r.value.Valid()
      ensures r.Some? ==> && r.value.codec == x && r.value.path == path && r.value.chain == c
                          && r.value.durable.journal == log
                          && r.value.durable.settings == Settings(ActionsOf(Current(c)), exploration, bonus, keyOf)
    {
      hide Replay, SelfVerified, RotationVerified, Authorised;
      assert |c.grants| > 0 ==>
               ((forall entry | entry in log :: Authorised(x, Current(c), entry.material.evidence)) <==>
                AllAuthorised(x, Current(c), log));
      var verified := Verify(x, c);
      if !verified { return None; }
      var current := Current(c);
      GrantsVerified(x, c, |c.grants| - 1);
      GrantedActionsValid(x, current);
      var authorised := ValidateJournal(x, current, log);
      if !authorised { return None; }
      var reader := D.DurableLearner.Open(path, Settings(ActionsOf(current), exploration, bonus, keyOf), log);
      match reader
      case Err(_) => return None;
      case Ok(d) =>
        var learner := new ChainedAuthorityLearner(x, path, c, d);
        return Some(learner);
    }

    /**
      An unauthorised measurement changes nothing; any other goes to the durable
      learner.  Either way the file can be opened again under the same chain.
     */
    method Apply(e: Evidence, appliedAt: string) returns (r: Result<D.ApplyResult, ChainedError>)
      requires Valid()
      modifies durable, durable.policy, durable.policy.Repr
      ensures Valid() && fresh(durable.policy.Repr - old(durable.policy.Repr))
      ensures r == Err(Unauthorised) <==> !Authorised(codec, Current(chain), e)
      ensures State() == if Authorised(codec, Current(chain), e)
                         then old(JournalRuns.Completed(durable.settings, State(), e, appliedAt)) else old(State())
      ensures Authorised(codec, Current(chain), e) ==>
                match old(Judge(durable.settings, durable.Memory(), e))
                case Rejected(why) => r == Err(Refused(why))
                case Duplicate =>
                  r == Ok(D.ApplyResult(false, true, durable.sequence, durable.lastEntryHash, Sha256(e.receipt),
                                        Sha256(e.experience)))
                case Accepted =>
                  r == Ok(D.ApplyResult(true, false, old(durable.sequence) + 1, durable.lastEntryHash,
                                        Sha256(e.receipt), Sha256(e.experience)))
    {
      hide Replay, SelfVerified, RotationVerified, Authorised, Judge, NewEntry, Learn;
      GrantsVerified(codec, chain, |chain.grants| - 1);
      var bound := ValidateSignedEvidence(codec, Current(chain), e);
      if bound {
        ghost var before := State();
        var applied := durable.Apply(e, appliedAt);
        CompletedStaysOpenable(codec, chain, durable.settings, before, e, appliedAt);
        assert State() == JournalRuns.Completed(durable.settings, before, e, appliedAt);
        match applied
        case Err(why) => r := Err(Refused(why));
        case Ok(result) => r := Ok(result);
      } else {
        r := Err(Unauthorised);
      }
    }

    /**
      Opens the next epoch: the chain grows by exactly one grant, the rotation into
      it is anchored to this journal as it now stands, and the new learner starts on
      another file.  Under a lawful scheme nothing but the listed conditions can
      stop it.  This learner is not closed: it may go on applying measurements,
      and its file may outgrow the anchor (see GrownJournalMissesAnchor).
     */
    method Rotate(next: SignedGrant, nextPath: string, nextLog: Log, privateKey: string, exploration: real, at: string)
      returns (r: Option<(ChainedAuthorityLearner, Rotation)>)
      requires Valid()
      ensures r.Some? ==> && nextPath != path && fresh(r.value.0) && r.value.0.Valid() && r.value.0.path == nextPath
                          && r.value.0.chain == Extended(chain, next, r.value.1) && r.value.0.durable.journal == nextLog
      ensures r.Some? ==> && r.value.1.material.sourceSequence == durable.sequence == |durable.journal|
                          && r.value.1.material.sourceHead == durable.lastEntryHash
      ensures codec.keys.Lawful() ==>
                (r.Some? <==>
                 && nextPath != "" && nextPath != path
                 && MayRotate(codec, Current(chain), next, durable.sequence, durable.lastEntryHash, privateKey)
                 && exploration >= 0.0 && ValidActions(ActionsOf(next))
                 && (forall entry | entry in nextLog :: Authorised(codec, next, entry.material.evidence))
                 && Replay(Settings(ActionsOf(next), exploration, durable.settings.bonus, durable.settings.keyOf),
                           nextLog).Ok?)
    {
      hide Replay, SelfVerified, RotationVerified, Authorised;
      if nextPath == "" || nextPath == path { return None; }
      var verified := Verify(codec, chain);
      if !verified { return None; }
      var current := Current(chain);
      var signed := SignRotation(codec, current, next, durable.sequence, durable.lastEntryHash, privateKey, at);
      if signed.None? { return None; }
      var longer := Extended(chain, next, signed.value);
      ExtendedVerified(codec, chain, next, signed.value);
      if codec.keys.Lawful() {
        SignedRotationVerifies(codec, current, next, durable.sequence, durable.lastEntryHash, privateKey, at);
      }
      verified := Verify(codec, longer);
      if !verified { return None; }
      assert Current(longer) == next;
      var reader := Open(codec, nextPath, nextLog, longer, exploration, durable.settings.bonus, durable.settings.keyOf);
      match reader
      case None => return None;
      case Some(learner) => return Some((learner, signed.value));
    }
  }

  /** A verified chain can always be opened on an empty file, whatever the exploration. */
  lemma FreshLearnerOpens(x: Codec, c: Chain, s: Settings)
    requires VerifiedChain(x, c) && s.actions == ActionsOf(Current(c)) && s.exploration >= 0.0
    ensures Openable(x, c, s, []) && JournalRuns.Sync(s, JournalRuns.NewLearner)
  {
    GrantsVerified(x, c, |c.grants| - 1);
    GrantedActionsValid(x, Current(c));
  }

  lemma CompletedStaysOpenable(x: Codec, c: Chain, s: Settings, l: JournalRuns.Learner, e: Evidence, at: string)
    requires Openable(x, c, s, l.log) && JournalRuns.Sync(s, l) && Authorised(x, Current(c), e)
    ensures Openable(x, c, s, JournalRuns.Completed(s, l, e, at).log)
    ensures JournalRuns.Sync(s, JournalRuns.Completed(s, l, e, at))
  {
    hide Authorised, Judge, Learn, RotationVerified, SelfVerified;
    var after := JournalRuns.Completed(s, l, e, at);
    forall i | 0 <= i < |after.log| ensures Authorised(x, Current(c), after.log[i].material.evidence) {
      if i < |l.log| { assert after.log[i] == l.log[i]; } else { assert after.log[i] == NewEntry(l.memory, e, at); }
    }
  }

  /** The head and length of any replayable journal are a legal anchor. */
  lemma JournalHeadAnchors(s: Settings, log: Log, m: Memory)
    requires ValidActions(s.actions) && Replay(s, log) == Ok(m)
    ensures ValidAnchor(m.sequence, m.head)
  {
    if log != [] { var _ := JournalRuns.ReplayLast(s, log, m); }
  }

  /** Journal `log` is the one rotation `r` closed. */
  ghost predicate Closes(r: Rotation, s: Settings, log: Log) {
    && ValidActions(s.actions) && Replay(s, log).Ok?
    && Replay(s, log).value.head == r.material.sourceHead && |log| == r.material.sourceSequence
  }

  /** The journals of every epoch a chain has left behind. */
  ghost predicate Closed(c: Chain, ss: seq<Settings>, logs: seq<Log>) {
    && |ss| == |logs| == |c.rotations|
    && forall i | 0 <= i < |logs| :: Closes(c.rotations[i], ss[i], logs[i])
  }

  /** Rotate adds the journal, as it then stands, to the history the chain commits to. */
  lemma RotationClosesJournal(c: Chain, ss: seq<Settings>, logs: seq<Log>, next: SignedGrant, r: Rotation,
                              s: Settings, l: JournalRuns.Learner)
    requires Closed(c, ss, logs) && JournalRuns.Sync(s, l)
    requires r.material.sourceSequence == l.memory.sequence && r.material.sourceHead == l.memory.head
    ensures Closed(Extended(c, next, r), ss + [s], logs + [l.log])
  {
    hide Replay;
    var e, ts, ls := Extended(c, next, r), ss + [s], logs + [l.log];
    assert Closes(r, s, l.log);
    forall i | 0 <= i < |ls| ensures Closes(e.rotations[i], ts[i], ls[i]) {
      if i < |logs| { assert Closes(c.rotations[i], ss[i], logs[i]); }
    }
  }

  /** One rotation fixes the whole journal of the epoch it closes. */
  lemma RotationFixesJournal(r: Rotation, s: Settings, a: Log, t: Settings, b: Log)
    requires Closes(r, s, a) && Closes(r, t, b)
    ensures a == b
  {
    JournalRuns.HeadCommitsToHistory(s, a, Replay(s, a).value, t, b, Replay(t, b).value);
  }

  /**
    The old learner may keep learning after a rotation.  Whatever its later
    history, its journal matches the anchor exactly when no event of that history
    is one it would accept as it stood at the rotation.
   */
  lemma GrownJournalMissesAnchor(r: Rotation, s: Settings, l: JournalRuns.Learner, events: seq<JournalRuns.Event>,
                                 later: JournalRuns.Learner)
    requires JournalRuns.Sync(s, l) && Closes(r, s, l.log) && later == JournalRuns.Run(s, l, events)
    ensures l.log <= later.log
    ensures Closes(r, s, later.log) <==> forall i | 0 <= i < |events| :: !JournalRuns.Accepts(s, l, events[i])
    ensures Closes(r, s, later.log) <==> later.memory.head == r.material.sourceHead
    ensures Closes(r, s, later.log) <==> later.log == l.log
  {
    hide Replay, JournalRuns.Accepts, JournalRuns.Run;
    JournalRuns.UnchangedIffNothingAccepted(s, l, events);
    if later.memory.head == r.material.sourceHead {
      JournalRuns.HeadCommitsToHistory(s, l.log, l.memory, s, later.log, later.memory);
    }
  }

  // ---- what a learner can still be taught ----

  /** A result that reports `reward` for `action`. */
  function Report(action: string, key: string, reward: real): Object {
    map["selected_action" := Str(action), "context_key" := Str(key), "reward_unit" := Str("unit"),
        "reward" := Num(reward)]
  }

  /** What the memory holds for a context. */
  function StatsFor(s: Settings, m: Memory, ctx: Context): Stats {
    Lookup(s.actions, m.learned, s.keyOf(ctx)).stats
  }

  lemma StatsForActions(s: Settings, m: Memory, ctx: Context, action: string)
    requires MemoryOk(s, m) && action in s.actions
    ensures action in StatsFor(s, m, ctx) && StatsFor(s, m, ctx)[action].count >= 0
  {
    LookupOk(s.actions, m.learned, s.keyOf(ctx));
  }

  /** A measurement of `action` in `ctx` under the grant, with `name` for each of its identities. */
  function Measurement(x: Codec, g: SignedGrant, s: Settings, m: Memory, ctx: Context, action: string, reward: real,
                       name: string): Evidence
    requires MemoryOk(s, m) && action in s.actions
  {
    StatsForActions(s, m, ctx, action);
    var key, before := s.keyOf(ctx), StatsFor(s, m, ctx);
    var result := BindSignedResult(x, g, Report(action, key, reward));
    var receipt := Metro.Receipt(Metro.ReceiptProtocol, name, name, "route", action, "SUCCEEDED", "sha256",
                                 Metro.HashObject(map[]), Metro.HashObject(result), ExperienceRefPrefix + name, "", "");
    var exp := Experience(ExperienceProtocol, name, name, "route", name, Metro.HashObject(result), ctx, key, action,
                          reward, "unit", before, before[action := Observed(before[action], reward)], "", "");
    Evidence(receipt, result, exp)
  }

  lemma ReportKept(x: Codec, g: SignedGrant, action: string, key: string, reward: real)
    ensures var result := BindSignedResult(x, g, Report(action, key, reward));
            && ValueString(result, "selected_action") == action && ValueString(result, "context_key") == key
            && ValueString(result, "reward_unit") == "unit" && ValueFloat(result, "reward") == Some(reward)
  {
  }

  lemma MeasurementPasses(x: Codec, g: SignedGrant, s: Settings, m: Memory, ctx: Context, action: string,
                          reward: real, name: string)
    requires MemoryOk(s, m) && action in s.actions && ctx.Complete()
    ensures EvidenceError(s, Measurement(x, g, s, m, ctx, action, reward, name)).Pass?
  {
    hide StatsFor, Observed, MemoryOk, BindSignedResult, Report, ValueString, ValueFloat;
    ReportKept(x, g, action, s.keyOf(ctx), reward);
  }

  lemma SameStatsItself(a: Stats)
    ensures SameStats(a, a)
  {
  }

  lemma MeasurementFits(x: Codec, g: SignedGrant, s: Settings, m: Memory, ctx: Context, action: string,
                        reward: real, name: string)
    requires MemoryOk(s, m) && action in s.actions
    ensures TransitionError(s, m, Measurement(x, g, s, m, ctx, action, reward, name)).Pass?
  {
    hide BindSignedResult, Report, Observed, SameStats;
    StatsForActions(s, m, ctx, action);
    var before := StatsFor(s, m, ctx);
    SameStatsItself(before);
    SameStatsItself(before[action := Observed(before[action], reward)]);
  }

  lemma MeasurementAuthorised(x: Codec, g: SignedGrant, s: Settings, m: Memory, ctx: Context, action: string,
                              reward: real, name: string)
    requires MemoryOk(s, m) && action in s.actions && s.actions == ActionsOf(g)
    ensures Authorised(x, g, Measurement(x, g, s, m, ctx, action, reward, name))
  {
    hide MemoryOk, StatsFor, Observed, Authorised, BindSignedResult;
    var report := Report(action, s.keyOf(ctx), reward);
    assert ValueString(report, "selected_action") == action;
    BoundResultAuthorised(x, g, Measurement(x, g, s, m, ctx, action, reward, name), report);
  }

  /**
    Nothing ever exhausts a learner: whatever it holds, each allowed action can be
    measured with any reward in any complete context so that the current grant
    authorises the measurement and the learner accepts it.
   */
  lemma AnyMeasurementIsPossible(x: Codec, c: Chain, s: Settings, l: JournalRuns.Learner, ctx: Context,
                                 action: string, reward: real) returns (e: Evidence)
    requires Openable(x, c, s, l.log) && JournalRuns.Sync(s, l) && ctx.Complete() && action in s.actions
    ensures Authorised(x, Current(c), e) && Judge(s, l.memory, e).Accepted?
    ensures e.experience.context == ctx && e.experience.selectedAction == action && e.experience.reward == reward
  {
    var m, g := l.memory, Current(c);
    hide Authorised, EvidenceError, TransitionError, MemoryOk, BindSignedResult, Report, StatsFor, SelfVerified,
         RotationVerified, AllAuthorised;
    var name := FreshName(m.receiptHashes.Keys + m.experienceHashes.Keys + m.actionReceipts.Keys);
    e := Measurement(x, g, s, m, ctx, action, reward, name);
    MeasurementPasses(x, g, s, m, ctx, action, reward, name);
    MeasurementFits(x, g, s, m, ctx, action, reward, name);
    MeasurementAuthorised(x, g, s, m, ctx, action, reward, name);
  }

  /** So after every rotation the old file can outgrow its anchor, by a measurement its own grant authorises. */
  lemma AnchorCanBeOutgrown(x: Codec, c: Chain, r: Rotation, s: Settings, l: JournalRuns.Learner, at: string)
    returns (e: Evidence)
    requires Openable(x, c, s, l.log) && JournalRuns.Sync(s, l) && Closes(r, s, l.log)
    ensures Authorised(x, Current(c), e) && Judge(s, l.memory, e).Accepted?
    ensures !Closes(r, s, JournalRuns.Next(s, l, JournalRuns.Apply(e, at)).log)
  {
    hide Authorised, Judge, Closes, AllAuthorised, SelfVerified, RotationVerified, Replay;
    e := AnyMeasurementIsPossible(x, c, s, l, Context("w", "c", "l", "m"), s.actions[0], 0.0);
    var events := [JournalRuns.Apply(e, at)];
    var later := JournalRuns.Next(s, l, events[0]);
    assert JournalRuns.Run(s, later, events[1..]) == later;
    assert JournalRuns.Accepts(s, l, events[0]);
    GrownJournalMissesAnchor(r, s, l, events, later);
  }

  /**
    The pinned root and the rotation hashes commit to everything the learner ever
    learned before the current epoch: every grant, every rotation, every journal.
   */
  lemma ChainFixesHistory(x: Codec, a: Chain, ss: seq<Settings>, logs: seq<Log>, b: Chain, ts: seq<Settings>,
                          others: seq<Log>)
    requires VerifiedChain(x, a) && VerifiedChain(x, b) && a.root == b.root && |a.rotations| == |b.rotations|
    requires forall i | 0 <= i < |a.rotations| :: a.rotations[i].rotationHash == b.rotations[i].rotationHash
    requires Closed(a, ss, logs) && Closed(b, ts, others)
    ensures a == b && logs == others
  {
    RootAndRotationsFixChain(x, a, b);
    forall i | 0 <= i < |logs| ensures logs[i] == others[i] {
      RotationFixesJournal(a.rotations[i], ss[i], logs[i], ts[i], others[i]);
    }
  }
}
