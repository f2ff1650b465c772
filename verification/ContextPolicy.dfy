/**
  One bandit per coarse runtime context (internal/adaptive/context.go).  The
  context key is an arbitrary function of the context, so two contexts may share one.
 */
module ContextPolicy {
  import opened Common
  import opened Bandit

  datatype Context = Context(workload: string, cpuClass: string, loadClass: string, memoryClass: string) {
    predicate Complete() {
      workload != "" && cpuClass != "" && loadClass != "" && memoryClass != ""
    }
  }

  /** What is fixed when a learner is constructed. */
  datatype Settings = Settings(actions: seq<string>, exploration: real, bonus: Bonus, keyOf: Context -> string)

  /** What has been learned: a table for each context key that has seen a reward. */
  type Learned = map<string, Table>

  /** A context never seen reads as an empty table. */
  function Lookup(actions: seq<string>, learned: Learned, key: string): Table {
    if key in learned then learned[key] else EmptyTable(actions)
  }

  ghost predicate LearnedOk(actions: seq<string>, learned: Learned) {
    ValidActions(actions) && forall k | k in learned :: TableOk(actions, learned[k]) && learned[k].total > 0
  }

  lemma LookupOk(actions: seq<string>, learned: Learned, key: string)
    requires LearnedOk(actions, learned)
    ensures TableOk(actions, Lookup(actions, learned, key))
  {
    EmptyTableOk(actions);
  }

  function LearnedAfter(actions: seq<string>, learned: Learned, key: string, action: string, reward: real): Learned
    requires action in Lookup(actions, learned, key).stats && Lookup(actions, learned, key).stats[action].count >= 0
  {
    learned[key := TableAfter(Lookup(actions, learned, key), action, reward)]
  }

  lemma LearnedAfterOk(actions: seq<string>, learned: Learned, key: string, action: string, reward: real)
    requires LearnedOk(actions, learned) && action in actions
    ensures TableOk(actions, Lookup(actions, learned, key))
    ensures LearnedOk(actions, LearnedAfter(actions, learned, key, action, reward))
  {
    LookupOk(actions, learned, key);
    TableAfterOk(actions, Lookup(actions, learned, key), action, reward);
  }

  /** Table `t` is what `learned` says about key `k`. */
  ghost predicate Holds(actions: seq<string>, t: Table, learned: Learned, k: string) {
    TableOk(actions, t) && t == Lookup(actions, learned, k) && (k in learned ==> t.total > 0)
  }

  lemma UnseenHolds(actions: seq<string>, learned: Learned, key: string)
    requires ValidActions(actions) && key !in learned
    ensures Holds(actions, EmptyTable(actions), learned, key)
  {
    EmptyTableOk(actions);
  }

  lemma TableListed(actions: seq<string>, t: Table, action: string)
    requires TableOk(actions, t) && action in actions
    ensures action in t.stats && t.stats[action].count >= 0
  {
  }

  lemma HoldsElsewhere(actions: seq<string>, t: Table, learned: Learned, k: string, key: string, table: Table)
    requires Holds(actions, t, learned, k) && k != key
    ensures Holds(actions, t, learned[key := table], k)
  {
  }

  lemma HoldsAfter(actions: seq<string>, t: Table, learned: Learned, key: string, action: string, reward: real)
    requires Holds(actions, t, learned, key) && action in actions
    ensures Holds(actions, TableAfter(t, action, reward), learned[key := TableAfter(t, action, reward)], key)
    ensures LearnedAfter(actions, learned, key, action, reward) == learned[key := TableAfter(t, action, reward)]
  {
    TableAfterOk(actions, t, action, reward);
  }

  datatype ContextDecision = ContextDecision(contextKey: string, decision: Decision)

  class ContextualUCB1Policy {
    const settings: Settings
    var policies: map<string, UCB1Policy>
    ghost var learned: Learned
    ghost var Repr: set<object>

    /** The policy under key `k` holds what `learned` says; one with no observation does not show there. */
    ghost predicate Slot(k: string)
      requires k in policies
      reads this, policies[k]
    {
      var p := policies[k];
      && p.actions == settings.actions && p.exploration == settings.exploration && p.bonus == settings.bonus
      && Holds(settings.actions, p.View(), learned, k)
    }

    ghost predicate Valid()
      reads this, Repr
    {
      && ValidActions(settings.actions)
      && learned.Keys <= policies.Keys
      && (forall k | k in policies :: policies[k] in Repr)
      && (forall k, m | k in policies && m in policies && k != m :: policies[k] != policies[m])
      && (forall k | k in policies :: Slot(k))
    }

    constructor (settings: Settings)
      requires ValidActions(settings.actions)
      ensures Valid() && Repr == {} && learned == map[] && this.settings == settings
    {
      this.settings := settings;
      policies, learned, Repr := map[], map[], {};
    }

    /** The policy for a complete context, created on first sight; nothing learned changes. */
    method PolicyFor(ctx: Context) returns (r: Result<UCB1Policy, PolicyError>)
      requires Valid() && this !in Repr
      modifies this`policies, this`Repr
      ensures Valid() && fresh(Repr - old(Repr)) && old(Repr) <= Repr && this !in Repr
      ensures r.Ok? <==> ctx.Complete()
      ensures r.Ok? ==> settings.keyOf(ctx) in policies && policies[settings.keyOf(ctx)] == r.value
    {
      if ctx.workload == "" || ctx.cpuClass == "" || ctx.loadClass == "" || ctx.memoryClass == "" {
        return Err(EmptyContextField);
      }
      hide TableOk, Holds, EmptyTable;
      var key := settings.keyOf(ctx);
      if key in policies {
        return Ok(policies[key]);
      }
      var created := new UCB1Policy(settings.actions, settings.exploration, settings.bonus);
      ghost var before := policies;
      policies := policies[key := created];
      Repr := Repr + {created};
      UnseenHolds(settings.actions, learned, key);
      forall k | k in policies ensures Slot(k) {
        if k != key { assert old(Slot(k)) && policies[k] == before[k]; }
      }
      return Ok(created);
    }

    method SnapshotContext(ctx: Context) returns (r: Result<Stats, PolicyError>)
      requires Valid() && this !in Repr
      modifies this`policies, this`Repr
      ensures Valid() && fresh(Repr - old(Repr)) && old(Repr) <= Repr && this !in Repr
      ensures r.Ok? <==> ctx.Complete()
      ensures r.Ok? ==> r.value == Lookup(settings.actions, learned, settings.keyOf(ctx)).stats
    {
      var policy := PolicyFor(ctx);
      if policy.Err? { return Err(policy.error); }
      assert Slot(settings.keyOf(ctx));
      return Ok(policy.value.stats);
    }

    /** Chooses in one context; nothing learned changes, there or elsewhere. */
    method Choose(ctx: Context) returns (r: Result<ContextDecision, PolicyError>)
      requires Valid() && this !in Repr
      modifies this`policies, this`Repr
      ensures Valid() && fresh(Repr - old(Repr)) && old(Repr) <= Repr && this !in Repr
      ensures r.Ok? <==> ctx.Complete()
      ensures r.Ok? ==>
                var t := Lookup(settings.actions, learned, settings.keyOf(ctx));
                && r.value.contextKey == settings.keyOf(ctx) && TableOk(settings.actions, t)
                && Decides(settings.actions, t, settings.exploration, settings.bonus, r.value.decision)
    {
      hide Decides, TableOk;
      var policy := PolicyFor(ctx);
      if policy.Err? { return Err(policy.error); }
      assert Slot(settings.keyOf(ctx));
      var d := policy.value.Choose();
      return Ok(ContextDecision(settings.keyOf(ctx), d));
    }

    /** Observes in one context; every table under another key is untouched. */
    method Observe(ctx: Context, action: string, reward: real) returns (r: Outcome<PolicyError>)
      requires Valid() && this !in Repr
      modifies this, Repr
      ensures Valid() && fresh(Repr - old(Repr)) && old(Repr) <= Repr && this !in Repr
      ensures r.Pass? <==> ctx.Complete() && action in settings.actions
      ensures r.Fail? ==> learned == old(learned)
      ensures r.Pass? ==>
                && TableOk(settings.actions, Lookup(settings.actions, old(learned), settings.keyOf(ctx)))
                && learned == LearnedAfter(settings.actions, old(learned), settings.keyOf(ctx), action, reward)
    {
      hide TableOk, TableAfter;
      var policy := PolicyFor(ctx);
      if policy.Err? { return Fail(policy.error); }
      ghost var key := settings.keyOf(ctx);
      assert Slot(key);
      ghost var table, before := policy.value.View(), learned;
      r := policy.value.Observe(action, reward);
      if r.Pass? {
        TableListed(settings.actions, table, action);
        HoldsAfter(settings.actions, table, before, key, action, reward);
        learned := before[key := TableAfter(table, action, reward)];
        forall k | k in policies && k != key ensures Slot(k) {
          assert policies[k] != policy.value;
          HoldsElsewhere(settings.actions, policies[k].View(), before, k, key, learned[key]);
        }
      }
    }
  }

  /** Observing under one key changes no other key's table, and adds one to its own total. */
  lemma ObservedElsewhere(actions: seq<string>, learned: Learned, key: string, action: string, reward: real,
                          other: string)
    requires LearnedOk(actions, learned) && action in actions
    ensures TableOk(actions, Lookup(actions, learned, key))
    ensures var after := LearnedAfter(actions, learned, key, action, reward);
            Lookup(actions, after, other) ==
              if other == key then TableAfter(Lookup(actions, learned, key), action, reward)
              else Lookup(actions, learned, other)
  {
    LookupOk(actions, learned, key);
  }

  // ---- turns in several contexts ----

  /** One choice made in the context with this key, and the reward then observed for it. */
  datatype Turn = Turn(key: string, action: string, reward: real)

  ghost predicate TakesTurn(s: Settings, l: Learned, turn: Turn, l': Learned) {
    LearnedOk(s.actions, l) && turn.action in s.actions
    && TableOk(s.actions, Lookup(s.actions, l, turn.key))
    && Picks(s.actions, Lookup(s.actions, l, turn.key), s.exploration, s.bonus, turn.action)
    && l' == LearnedAfter(s.actions, l, turn.key, turn.action, turn.reward)
  }

  /** Turns in any contexts, in any order. */
  ghost predicate Turns(s: Settings, l: Learned, turns: seq<Turn>, l': Learned) {
    if turns == [] then l' == l
    else
      var n := |turns| - 1;
      exists m :: Turns(s, l, turns[..n], m) && TakesTurn(s, m, turns[n], l')
  }

  /** The turns taken in one context. */
  function ActionsIn(turns: seq<Turn>, key: string): seq<string> {
    if turns == [] then []
    else
      var n := |turns| - 1;
      ActionsIn(turns[..n], key) + (if turns[n].key == key then [turns[n].action] else [])
  }

  function RewardsIn(turns: seq<Turn>, key: string): (r: seq<real>)
    ensures |r| == |ActionsIn(turns, key)|
  {
    if turns == [] then []
    else
      var n := |turns| - 1;
      RewardsIn(turns[..n], key) + (if turns[n].key == key then [turns[n].reward] else [])
  }

  lemma RoundAdded(s: Settings, t: Table, picks: seq<string>, rewards: seq<real>, m: Table, action: string,
                   reward: real, t': Table)
    requires |picks| == |rewards| && Rounds(s.actions, s.exploration, s.bonus, t, picks, rewards, m)
    requires Round(s.actions, s.exploration, s.bonus, m, action, reward, t')
    ensures Rounds(s.actions, s.exploration, s.bonus, t, picks + [action], rewards + [reward], t')
  {
    assert (picks + [action])[..|picks|] == picks && (rewards + [reward])[..|rewards|] == rewards;
  }

  lemma TurnElsewhere(s: Settings, l: Learned, turn: Turn, l': Learned, key: string)
    requires TakesTurn(s, l, turn, l')
    ensures LearnedOk(s.actions, l')
    ensures turn.key != key ==> Lookup(s.actions, l', key) == Lookup(s.actions, l, key)
    ensures turn.key == key ==>
              Round(s.actions, s.exploration, s.bonus, Lookup(s.actions, l, key), turn.action, turn.reward,
                    Lookup(s.actions, l', key))
  {
    hide Picks;
    LearnedAfterOk(s.actions, l, turn.key, turn.action, turn.reward);
    ObservedElsewhere(s.actions, l, turn.key, turn.action, turn.reward, key);
  }

  /** What one context has learned is the result of its own turns, whatever happened in the others. */
  lemma {:induction false} ContextsAreIndependent(s: Settings, turns: seq<Turn>, l: Learned, key: string)
    requires ValidActions(s.actions) && Turns(s, map[], turns, l)
    ensures LearnedOk(s.actions, l)
    ensures Rounds(s.actions, s.exploration, s.bonus, EmptyTable(s.actions), ActionsIn(turns, key),
                   RewardsIn(turns, key), Lookup(s.actions, l, key))
    decreases |turns|
  {
    hide TakesTurn, Round, LearnedOk, Lookup;
    if turns == [] {
      NothingLearned(s, key);
    } else {
      var n := |turns| - 1;
      var m :| Turns(s, map[], turns[..n], m) && TakesTurn(s, m, turns[n], l);
      ContextsAreIndependent(s, turns[..n], m, key);
      TurnElsewhere(s, m, turns[n], l, key);
      if turns[n].key == key {
        RoundAdded(s, EmptyTable(s.actions), ActionsIn(turns[..n], key), RewardsIn(turns[..n], key),
                   Lookup(s.actions, m, key), turns[n].action, turns[n].reward, Lookup(s.actions, l, key));
      } else {
        assert ActionsIn(turns, key) == ActionsIn(turns[..n], key)
          && RewardsIn(turns, key) == RewardsIn(turns[..n], key);
      }
    }
  }

  lemma NothingLearned(s: Settings, key: string)
    requires ValidActions(s.actions)
    ensures LearnedOk(s.actions, map[]) && Lookup(s.actions, map[], key) == EmptyTable(s.actions)
  {
  }

  /**
    In every context the first n turns pick the n actions once each, in construction
    order, however contexts alternate.
   */
  lemma OpeningInEveryContext(s: Settings, turns: seq<Turn>, l: Learned, key: string)
    requires ValidActions(s.actions) && Turns(s, map[], turns, l) && |ActionsIn(turns, key)| <= |s.actions|
    ensures ActionsIn(turns, key) == s.actions[..|ActionsIn(turns, key)|]
  {
    ContextsAreIndependent(s, turns, l, key);
    OpeningRounds(s.actions, s.exploration, s.bonus, ActionsIn(turns, key), RewardsIn(turns, key),
                  Lookup(s.actions, l, key));
  }

  /** And every later turn picks the first action of maximal score, judged by this context's own rewards. */
  lemma LaterTurnsPickBest(s: Settings, turns: seq<Turn>, l: Learned, turn: Turn, l': Learned)
    requires ValidActions(s.actions) && Turns(s, map[], turns, l) && TakesTurn(s, l, turn, l')
    requires |ActionsIn(turns, turn.key)| >= |s.actions|
    ensures exists i :: 0 <= i < |s.actions| && s.actions[i] == turn.action
                        && FirstBest(s.actions, Lookup(s.actions, l, turn.key), s.exploration, s.bonus, i)
  {
    ContextsAreIndependent(s, turns, l, turn.key);
    LaterRoundsPickBest(s.actions, s.exploration, s.bonus, ActionsIn(turns, turn.key), RewardsIn(turns, turn.key),
                        Lookup(s.actions, l, turn.key), turn.action);
  }
}
