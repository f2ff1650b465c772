/**
  The allow-listed online policy (internal/adaptive/policy.go), over exact reals.
 */
module Bandit {
  import opened Common
  import opened Ordering

  datatype ActionStat = ActionStat(count: int, mean: real)

  type Stats = map<string, ActionStat>

  /** What one UCB1Policy has learned. */
  datatype Table = Table(stats: Stats, total: int)

  datatype PolicyError = NoActions | NegativeExploration | EmptyAction | DuplicateAction | OutsideAllowList
    | EmptyContextField

  type Positive = n: int | n > 0 witness 1

  /** The square root of log(total)/count: left uninterpreted, but defined only on positive arguments. */
  type Bonus = (Positive, Positive) -> real

  predicate ValidActions(actions: seq<string>) {
    actions != [] && "" !in actions && Distinct(actions)
  }

  const Untested := ActionStat(0, 0.0)

  function EmptyTable(actions: seq<string>): Table {
    Table(map a | a in actions :: Untested, 0)
  }

  /** One more reward folded into a running mean. */
  function Observed(s: ActionStat, reward: real): ActionStat
    requires s.count >= 0
  {
    ActionStat(s.count + 1, s.mean + (reward - s.mean) / (s.count + 1) as real)
  }

  function TableAfter(t: Table, action: string, reward: real): Table
    requires action in t.stats && t.stats[action].count >= 0
  {
    Table(t.stats[action := Observed(t.stats[action], reward)], t.total + 1)
  }

  function SumCounts(actions: seq<string>, stats: Stats): int
    requires forall a | a in actions :: a in stats
  {
    if actions == [] then 0 else SumCounts(actions[..|actions| - 1], stats) + stats[actions[|actions| - 1]].count
  }

  ghost predicate TableOk(actions: seq<string>, t: Table) {
    && ValidActions(actions)
    && t.stats.Keys == (set a | a in actions)
    && (forall a | a in actions :: t.stats[a].count >= 0 && (t.stats[a].count == 0 ==> t.stats[a] == Untested))
    && t.total == SumCounts(actions, t.stats)
  }

  lemma {:induction false} SumOfEmpty(actions: seq<string>, stats: Stats)
    requires forall a | a in actions :: a in stats && stats[a] == Untested
    ensures SumCounts(actions, stats) == 0
  {
    if actions != [] { SumOfEmpty(actions[..|actions| - 1], stats); }
  }

  lemma {:induction false} SumAfter(actions: seq<string>, stats: Stats, action: string, s: ActionStat)
    requires (forall a | a in actions :: a in stats) && Distinct(actions) && action in stats
    ensures SumCounts(actions, stats[action := s]) ==
              SumCounts(actions, stats) + (if action in actions then s.count - stats[action].count else 0)
  {
    if actions != [] {
      SumAfter(actions[..|actions| - 1], stats, action, s);
    }
  }

  lemma {:induction false} SumBounds(actions: seq<string>, stats: Stats, a: string)
    requires forall b | b in actions :: b in stats && stats[b].count >= 0
    ensures SumCounts(actions, stats) >= 0
    ensures a in actions ==> SumCounts(actions, stats) >= stats[a].count
  {
    if actions != [] {
      SumBounds(actions[..|actions| - 1], stats, a);
    }
  }

  lemma EmptyTableOk(actions: seq<string>)
    requires ValidActions(actions)
    ensures TableOk(actions, EmptyTable(actions))
  {
    SumOfEmpty(actions, EmptyTable(actions).stats);
  }

  lemma TableAfterOk(actions: seq<string>, t: Table, action: string, reward: real)
    requires TableOk(actions, t) && action in actions
    ensures TableOk(actions, TableAfter(t, action, reward))
    ensures TableAfter(t, action, reward).total > 0
  {
    SumAfter(actions, t.stats, action, Observed(t.stats[action], reward));
    SumBounds(actions, t.stats, action);
  }

  datatype ScoreValue = Infinite | Finite(value: real)

  /** A total of zero means nothing was ever observed, but not that every mean is zero. */
  function Score(t: Table, exploration: real, bonus: Bonus, action: string): real
    requires action in t.stats && t.stats[action].count > 0 && t.total > 0
  {
    t.stats[action].mean + exploration * bonus(t.total, t.stats[action].count)
  }

  /** The score of every listed action. */
  function Scores(t: Table, exploration: real, bonus: Bonus, names: seq<string>): map<string, ScoreValue>
    requires t.total > 0 && forall a | a in names :: a in t.stats && t.stats[a].count > 0
  {
    if names == [] then map[]
    else
      var n := |names| - 1;
      Scores(t, exploration, bonus, names[..n])[names[n] := Finite(Score(t, exploration, bonus, names[n]))]
  }

  predicate AllTested(actions: seq<string>, t: Table)
    requires t.stats.Keys == set a | a in actions
  {
    forall a | a in actions :: t.stats[a].count > 0
  }

  lemma AllTestedTotal(actions: seq<string>, t: Table)
    requires TableOk(actions, t) && AllTested(actions, t)
    ensures t.total > 0
  {
    SumBounds(actions, t.stats, actions[0]);
  }

  /** `actions[i]` is the first untested action in construction order. */
  ghost predicate FirstUntested(actions: seq<string>, t: Table, i: int)
    requires TableOk(actions, t)
  {
    && 0 <= i < |actions| && t.stats[actions[i]].count == 0
    && forall j | 0 <= j < i :: t.stats[actions[j]].count != 0
  }

  /** Of the first `k` actions, all tested, `actions[i]` is the first of maximal score. */
  ghost predicate FirstBestOf(actions: seq<string>, t: Table, exploration: real, bonus: Bonus, k: int, i: int)
    requires TableOk(actions, t) && AllTested(actions, t) && t.total > 0 && k <= |actions|
  {
    && 0 <= i < k
    && forall j | 0 <= j < k ::
         && Score(t, exploration, bonus, actions[j]) <= Score(t, exploration, bonus, actions[i])
         && (j < i ==> Score(t, exploration, bonus, actions[j]) < Score(t, exploration, bonus, actions[i]))
  }

  /** Everything is tested and `actions[i]` is the first of maximal score. */
  ghost predicate FirstBest(actions: seq<string>, t: Table, exploration: real, bonus: Bonus, i: int)
    requires TableOk(actions, t)
  {
    && AllTested(actions, t) && t.total > 0 && FirstBestOf(actions, t, exploration, bonus, |actions|, i)
  }

  lemma OneMoreScore(actions: seq<string>, t: Table, exploration: real, bonus: Bonus, i: nat)
    requires TableOk(actions, t) && AllTested(actions, t) && t.total > 0 && i < |actions|
    ensures Scores(t, exploration, bonus, actions[..i + 1]) ==
            Scores(t, exploration, bonus, actions[..i])[actions[i] := Finite(Score(t, exploration, bonus, actions[i]))]
  {
    hide Score;
    assert actions[..i + 1][..i] == actions[..i];
  }

  /** The running best after the first `i` scores. */
  ghost predicate BestSoFar(actions: seq<string>, t: Table, exploration: real, bonus: Bonus, i: nat, best: nat,
                            bestScore: ScoreValue)
    requires TableOk(actions, t) && AllTested(actions, t) && t.total > 0 && i <= |actions| && best < |actions|
  {
    if i == 0 then bestScore == Infinite
    else
      && FirstBestOf(actions, t, exploration, bonus, i, best)
      && bestScore == Finite(Score(t, exploration, bonus, actions[best]))
  }

  lemma OneMoreCompared(actions: seq<string>, t: Table, exploration: real, bonus: Bonus, i: nat, best: nat,
                        bestScore: ScoreValue, score: real)
    requires TableOk(actions, t) && AllTested(actions, t) && t.total > 0 && i < |actions| && best < |actions|
    requires BestSoFar(actions, t, exploration, bonus, i, best, bestScore)
    requires score == Score(t, exploration, bonus, actions[i])
    ensures if bestScore.Infinite? || score > bestScore.value
            then BestSoFar(actions, t, exploration, bonus, i + 1, i, Finite(score))
            else BestSoFar(actions, t, exploration, bonus, i + 1, best, bestScore)
  {
    hide Score, TableOk, AllTested;
  }

  lemma BestAtEnd(actions: seq<string>, t: Table, exploration: real, bonus: Bonus, best: nat, bestScore: ScoreValue)
    requires TableOk(actions, t) && AllTested(actions, t) && t.total > 0 && best < |actions|
    requires BestSoFar(actions, t, exploration, bonus, |actions|, best, bestScore)
    ensures FirstBest(actions, t, exploration, bonus, best)
  {
    hide Score;
  }

  ghost predicate Picks(actions: seq<string>, t: Table, exploration: real, bonus: Bonus, action: string)
    requires TableOk(actions, t)
  {
    exists i :: 0 <= i < |actions| && actions[i] == action
                && (FirstUntested(actions, t, i) || FirstBest(actions, t, exploration, bonus, i))
  }

  datatype Decision = Decision(action: string, scores: map<string, ScoreValue>, stats: Stats)

  /** A decision taken on table `t`: its pick, the scores behind it, and the statistics it was taken on. */
  ghost predicate Decides(actions: seq<string>, t: Table, exploration: real, bonus: Bonus, d: Decision)
    requires TableOk(actions, t)
  {
    && Picks(actions, t, exploration, bonus, d.action) && d.stats == t.stats
    && if AllTested(actions, t)
       then t.total > 0 && d.scores == Scores(t, exploration, bonus, actions)
       else d.scores == map[d.action := Infinite]
  }

  class UCB1Policy {
    const actions: seq<string>
    const exploration: real
    const bonus: Bonus
    var stats: Stats
    var total: int

    function View(): Table
      reads this
    {
      Table(stats, total)
    }

    ghost predicate Valid()
      reads this
    {
      TableOk(actions, View())
    }

    constructor (actions: seq<string>, exploration: real, bonus: Bonus)
      requires ValidActions(actions)
      ensures Valid() && View() == EmptyTable(actions)
      ensures this.actions == actions && this.exploration == exploration && this.bonus == bonus
    {
      this.actions, this.exploration, this.bonus := actions, exploration, bonus;
      stats, total := map a | a in actions :: Untested, 0;
      new;
      EmptyTableOk(actions);
    }

    /** NewUCB1Policy's checks, in its order. */
    static method CheckActions(actions: seq<string>, exploration: real) returns (r: Outcome<PolicyError>)
      ensures r.Pass? <==>
                && actions != [] && exploration >= 0.0 && (forall i | 0 <= i < |actions| :: actions[i] != "")
                && (forall i, j | 0 <= i < j < |actions| :: actions[i] != actions[j])
      ensures r.Pass? <==> ValidActions(actions) && exploration >= 0.0
      ensures r == Fail(NoActions) <==> actions == []
      ensures r == Fail(NegativeExploration) <==> actions != [] && exploration < 0.0
    {
      if |actions| == 0 { return Fail(NoActions); }
      if exploration < 0.0 { return Fail(NegativeExploration); }
      var seen: set<string> := {};
      for i := 0 to |actions|
        invariant seen == set a | a in actions[..i]
        invariant "" !in actions[..i] && Distinct(actions[..i])
      {
        if actions[i] == "" { return Fail(EmptyAction); }
        if actions[i] in seen {
          var j :| 0 <= j < i && actions[j] == actions[i];
          return Fail(DuplicateAction);
        }
        assert actions[..i + 1] == actions[..i] + [actions[i]];
        seen := seen + {actions[i]};
      }
      assert actions[..|actions|] == actions;
      return Pass;
    }

    method Choose() returns (d: Decision)
      requires Valid()
      ensures Decides(actions, View(), exploration, bonus, d)
    {
      for i := 0 to |actions|
        invariant forall j | 0 <= j < i :: stats[actions[j]].count != 0
      {
        if stats[actions[i]].count == 0 {
          assert FirstUntested(actions, View(), i);
          return Decision(actions[i], map[actions[i] := Infinite], stats);
        }
      }
      assert AllTested(actions, View());
      var best, scores := BestScore();
      return Decision(actions[best], scores, stats);
    }

    /** Choose's second loop: the running best over every score. */
    method BestScore() returns (best: int, scores: map<string, ScoreValue>)
      requires Valid() && AllTested(actions, View())
      ensures FirstBest(actions, View(), exploration, bonus, best)
      ensures scores == Scores(View(), exploration, bonus, actions)
    {
      AllTestedTotal(actions, View());
      ghost var t := View();
      scores := map[];
      var bestScore := Infinite;
      best := 0;
      assert BestSoFar(actions, t, exploration, bonus, 0, 0, Infinite);
      hide TableOk, FirstBest, BestSoFar, Scores;
      for i := 0 to |actions|
        invariant 0 <= best < |actions| && BestSoFar(actions, t, exploration, bonus, i, best, bestScore)
        invariant scores == Scores(t, exploration, bonus, actions[..i])
      {
        var stat := stats[actions[i]];
        var score := stat.mean + exploration * bonus(total, stat.count);
        assert score == Score(t, exploration, bonus, actions[i]);
        OneMoreScore(actions, t, exploration, bonus, i);
        OneMoreCompared(actions, t, exploration, bonus, i, best, bestScore, score);
        scores := scores[actions[i] := Finite(score)];
        if bestScore.Infinite? || score > bestScore.value {
          best, bestScore := i, Finite(score);
        }
      }
      assert actions[..|actions|] == actions;
      BestAtEnd(actions, t, exploration, bonus, best, bestScore);
    }

    method Observe(action: string, reward: real) returns (r: Outcome<PolicyError>)
      requires Valid()
      modifies this
      ensures Valid()
      ensures r.Pass? <==> action in actions
      ensures View() == if r.Pass? then TableAfter(old(View()), action, reward) else old(View())
    {
      if action !in stats { return Fail(OutsideAllowList); }
      TableAfterOk(actions, View(), action, reward);
      var stat := stats[action];
      stat := stat.(count := stat.count + 1);
      stat := stat.(mean := stat.mean + (reward - stat.mean) / stat.count as real);
      stats := stats[action := stat];
      total := total + 1;
      return Pass;
    }

    /** The tested action of highest mean; ties go to the least name. */
    method BestObserved() returns (best: string, bestStat: ActionStat, found: bool)
      requires Valid()
      ensures BestAmong(actions, stats, found, best)
      ensures bestStat == if found then stats[best] else Untested
    {
      var keys := SortBy(Itself, actions);
      SortOrdered(Itself, actions);
      forall a ensures a in keys <==> a in actions { SortElements(Itself, actions, a); }
      best, bestStat, found := "", Untested, false;
      for i := 0 to |keys|
        invariant forall a | a in keys :: a in stats
        invariant BestAmong(keys[..i], stats, found, best)
        invariant bestStat == if found then stats[best] else Untested
      {
        assert keys[..i + 1] == keys[..i] + [keys[i]];
        BestNext(keys[..i], stats, found, best, keys[i]);
        var stat := stats[keys[i]];
        if stat.count == 0 { continue; }
        if !found || stat.mean > bestStat.mean {
          best, bestStat, found := keys[i], stat, true;
        }
      }
      assert keys[..|keys|] == keys;
    }
  }

  /** Higher mean, or the same mean and a lesser name. */
  predicate Beats(stats: Stats, x: string, y: string)
    requires x in stats && y in stats
  {
    stats[y].mean < stats[x].mean || (stats[y].mean == stats[x].mean && Less(x, y))
  }

  ghost predicate BestAmong(names: seq<string>, stats: Stats, found: bool, best: string)
    requires forall a | a in names :: a in stats
  {
    && (found <==> exists a :: a in names && stats[a].count != 0)
    && (found ==> best in names && stats[best].count != 0
                  && forall a | a in names && stats[a].count != 0 && a != best :: Beats(stats, best, a))
  }

  /** There is one best action only. */
  lemma BestUnique(names: seq<string>, stats: Stats, found: bool, best: string, found': bool, best': string)
    requires forall a | a in names :: a in stats
    requires BestAmong(names, stats, found, best) && BestAmong(names, stats, found', best')
    ensures found == found' && (found ==> best == best')
    ensures found ==> forall a | a in names && stats[a].count > 0 :: stats[a].mean <= stats[best].mean
  {
    if found && best != best' {
      assert Beats(stats, best, best') && Beats(stats, best', best);
      LessTotal(best, best');
    }
  }

  lemma BestNext(names: seq<string>, stats: Stats, found: bool, best: string, next: string)
    requires (forall a | a in names :: a in stats && !Less(next, a)) && next in stats
    requires BestAmong(names, stats, found, best)
    ensures var take := stats[next].count != 0 && (!found || stats[next].mean > stats[best].mean);
            BestAmong(names + [next], stats, found || take, if take then next else best)
  {
    forall a | a in names ensures a == next || Less(a, next) { LessTotal(a, next); }
    var take := stats[next].count != 0 && (!found || stats[next].mean > stats[best].mean);
    assert forall a :: a in names + [next] <==> a in names || a == next;
    if take && found {
      forall a | a in names && stats[a].count != 0 && a != next ensures Beats(stats, next, a) {
        if a != best { assert Beats(stats, best, a); }
      }
    }
  }

  /** Without exploration, or with all counts equal, the pick is the first action of highest mean. */
  lemma GreedyPick(actions: seq<string>, t: Table, exploration: real, bonus: Bonus, i: int, j: int)
    requires TableOk(actions, t) && FirstBest(actions, t, exploration, bonus, i) && 0 <= j < |actions|
    requires exploration == 0.0 || t.stats[actions[i]].count == t.stats[actions[j]].count
    ensures t.stats[actions[j]].mean <= t.stats[actions[i]].mean
    ensures j < i ==> t.stats[actions[j]].mean < t.stats[actions[i]].mean
  {
    assert Score(t, exploration, bonus, actions[j]) <= Score(t, exploration, bonus, actions[i]);
  }

  /** The bonus of a smaller count is larger. */
  ghost predicate RewardsRarity(bonus: Bonus) {
    forall n: Positive, a: Positive, b: Positive | a < b :: bonus(n, b) < bonus(n, a)
  }

  /** Of two actions with one mean, exploration prefers the one tried less. */
  lemma RarerPick(actions: seq<string>, t: Table, exploration: real, bonus: Bonus, i: int, j: int)
    requires TableOk(actions, t) && FirstBest(actions, t, exploration, bonus, i) && 0 <= j < |actions|
    requires exploration > 0.0 && RewardsRarity(bonus) && t.stats[actions[i]].mean == t.stats[actions[j]].mean
    ensures t.stats[actions[i]].count <= t.stats[actions[j]].count
  {
    assert Score(t, exploration, bonus, actions[j]) <= Score(t, exploration, bonus, actions[i]);
    var x, y := t.stats[actions[i]].count, t.stats[actions[j]].count;
    if y < x {
      assert bonus(t.total, x) < bonus(t.total, y);
      Scaled(exploration, bonus(t.total, x), bonus(t.total, y));
    }
  }

  lemma Scaled(w: real, a: real, b: real)
    requires w > 0.0 && a < b
    ensures w * a < w * b
  {
  }

  // ---- rounds of Choose followed by Observe of the choice ----

  /** One round: `action` is chosen in `m`, and observing `reward` for it gives `t`. */
  ghost predicate Round(actions: seq<string>, exploration: real, bonus: Bonus, m: Table, action: string, reward: real,
                        t: Table) {
    && TableOk(actions, m) && action in actions && Picks(actions, m, exploration, bonus, action)
    && t == TableAfter(m, action, reward)
  }

  /** `picks[i]` is chosen and then observed with `rewards[i]`, from table `t` to table `t'`. */
  ghost predicate Rounds(actions: seq<string>, exploration: real, bonus: Bonus, t: Table,
                         picks: seq<string>, rewards: seq<real>, t': Table)
    requires |picks| == |rewards|
  {
    if picks == [] then t' == t
    else
      var n := |picks| - 1;
      exists m :: && Rounds(actions, exploration, bonus, t, picks[..n], rewards[..n], m)
                  && Round(actions, exploration, bonus, m, picks[n], rewards[n], t')
  }

  /** After k rounds with k <= n, exactly the first k actions have been tried, once each. */
  ghost predicate Opening(actions: seq<string>, t: Table, k: nat)
    requires TableOk(actions, t)
  {
    k <= |actions| && forall i | 0 <= i < |actions| :: t.stats[actions[i]].count == (if i < k then 1 else 0)
  }

  lemma OpeningNext(actions: seq<string>, exploration: real, bonus: Bonus, m: Table, n: nat, action: string,
                    reward: real, t: Table)
    requires TableOk(actions, m) && Opening(actions, m, n) && n < |actions|
    requires Round(actions, exploration, bonus, m, action, reward, t)
    ensures action == actions[n] && TableOk(actions, t) && Opening(actions, t, n + 1)
  {
    assert m.stats[actions[n]].count == 0;
    var i :| 0 <= i < |actions| && actions[i] == action && FirstUntested(actions, m, i);
    assert i == n;
    TableAfterOk(actions, m, action, reward);
  }

  lemma OpeningStart(actions: seq<string>)
    requires ValidActions(actions)
    ensures TableOk(actions, EmptyTable(actions)) && Opening(actions, EmptyTable(actions), 0)
  {
    EmptyTableOk(actions);
  }

  /** The first n rounds try the n allow-listed actions once each, in construction order. */
  lemma {:induction false} OpeningRounds(actions: seq<string>, exploration: real, bonus: Bonus,
                                         picks: seq<string>, rewards: seq<real>, t: Table)
    requires ValidActions(actions) && |picks| == |rewards| <= |actions|
    requires Rounds(actions, exploration, bonus, EmptyTable(actions), picks, rewards, t)
    ensures TableOk(actions, t) && Opening(actions, t, |picks|)
    ensures picks == actions[..|picks|]
    decreases |picks|
  {
    hide ValidActions, TableOk, Opening, Round, EmptyTable;
    if picks == [] {
      OpeningStart(actions);
    } else {
      var n := |picks| - 1;
      var m := LastRound(actions, exploration, bonus, picks, rewards, t);
      OpeningRounds(actions, exploration, bonus, picks[..n], rewards[..n], m);
      OpeningNext(actions, exploration, bonus, m, n, picks[n], rewards[n], t);
      PrefixGrows(picks, actions, n);
    }
  }

  lemma PrefixGrows(picks: seq<string>, actions: seq<string>, n: nat)
    requires |picks| == n + 1 <= |actions| && picks[..n] == actions[..n] && picks[n] == actions[n]
    ensures picks == actions[..n + 1]
  {
    assert picks == picks[..n] + [picks[n]];
  }

  lemma LastRound(actions: seq<string>, exploration: real, bonus: Bonus, picks: seq<string>, rewards: seq<real>,
                  t: Table)
    returns (m: Table)
    requires |picks| == |rewards| && picks != []
    requires Rounds(actions, exploration, bonus, EmptyTable(actions), picks, rewards, t)
    ensures var n := |picks| - 1;
            && Rounds(actions, exploration, bonus, EmptyTable(actions), picks[..n], rewards[..n], m)
            && Round(actions, exploration, bonus, m, picks[n], rewards[n], t)
  {
    var n := |picks| - 1;
    m :| && Rounds(actions, exploration, bonus, EmptyTable(actions), picks[..n], rewards[..n], m)
         && Round(actions, exploration, bonus, m, picks[n], rewards[n], t);
  }

  lemma {:induction false} RoundsCount(actions: seq<string>, exploration: real, bonus: Bonus,
                                       picks: seq<string>, rewards: seq<real>, t: Table)
    requires ValidActions(actions) && |picks| == |rewards|
    requires Rounds(actions, exploration, bonus, EmptyTable(actions), picks, rewards, t)
    ensures TableOk(actions, t) && t.total == |picks|
    decreases |picks|
  {
    if picks == [] {
      EmptyTableOk(actions);
    } else {
      var n := |picks| - 1;
      var m := LastRound(actions, exploration, bonus, picks, rewards, t);
      RoundsCount(actions, exploration, bonus, picks[..n], rewards[..n], m);
      TableAfterOk(actions, m, picks[n], rewards[n]);
    }
  }

  lemma {:induction false} AllTestedAfterOpening(actions: seq<string>, exploration: real, bonus: Bonus,
                                                 picks: seq<string>, rewards: seq<real>, t: Table)
    requires ValidActions(actions) && |picks| == |rewards| >= |actions|
    requires Rounds(actions, exploration, bonus, EmptyTable(actions), picks, rewards, t)
    ensures TableOk(actions, t) && AllTested(actions, t)
    decreases |picks|
  {
    if |picks| == |actions| {
      OpeningRounds(actions, exploration, bonus, picks, rewards, t);
    } else {
      var n := |picks| - 1;
      var m := LastRound(actions, exploration, bonus, picks, rewards, t);
      AllTestedAfterOpening(actions, exploration, bonus, picks[..n], rewards[..n], m);
      TableAfterOk(actions, m, picks[n], rewards[n]);
    }
  }

  /** Every later round picks the first action of maximal score, each score well defined. */
  lemma LaterRoundsPickBest(actions: seq<string>, exploration: real, bonus: Bonus, picks: seq<string>,
                            rewards: seq<real>, t: Table, action: string)
    requires ValidActions(actions) && |picks| == |rewards| >= |actions|
    requires Rounds(actions, exploration, bonus, EmptyTable(actions), picks, rewards, t)
    requires TableOk(actions, t) && Picks(actions, t, exploration, bonus, action)
    ensures exists i :: 0 <= i < |actions| && actions[i] == action && FirstBest(actions, t, exploration, bonus, i)
  {
    AllTestedAfterOpening(actions, exploration, bonus, picks, rewards, t);
  }
}
