/**
  Every history of reservations and completions over one admission pool.
 */
module AdmissionPoolRuns {
  import opened Common
  import opened AdmissionPool

  // ---- the routing choice is total and unique ----

  /** Some station below the cap. */
  ghost predicate HasCapacity(c: Config, p: PoolState) {
    exists i :: 0 <= i < |p.stations| && p.stations[i].inFlight < c.cap
  }

  ghost predicate WellFormed(c: Config, p: PoolState) {
    && c.Valid() && p.stations != [] && 0 <= p.cursor < |p.stations|
    && forall i | 0 <= i < |p.stations| :: 0 <= p.stations[i].inFlight <= c.cap
  }

  lemma FindIdle(p: PoolState, upto: int) returns (k: int)
    requires p.stations != [] && 0 <= p.cursor && 0 <= upto <= |p.stations|
    ensures k == -1 ==> forall o | 0 <= o < upto :: !Idle(p.stations[At(p, o)])
    ensures k != -1 ==> FirstIdle(p, k)
  {
    k := -1;
    if upto > 0 {
      k := FindIdle(p, upto - 1);
      if k == -1 && Idle(p.stations[At(p, upto - 1)]) { k := upto - 1; }
    }
  }

  lemma FindFastest(c: Config, p: PoolState, upto: int) returns (k: int)
    requires p.stations != [] && 0 <= p.cursor && 0 <= upto <= |p.stations|
    ensures k == -1 ==> forall o | 0 <= o < upto :: p.stations[At(p, o)].inFlight >= c.cap
    ensures k != -1 ==>
              && 0 <= k < upto && p.stations[At(p, k)].inFlight < c.cap
              && forall o | 0 <= o < upto && p.stations[At(p, o)].inFlight < c.cap ::
                   && EstimatedDelay(c, p.stations[At(p, k)]) <= EstimatedDelay(c, p.stations[At(p, o)])
                   && (o < k ==> EstimatedDelay(c, p.stations[At(p, k)]) < EstimatedDelay(c, p.stations[At(p, o)]))
  {
    k := -1;
    if upto > 0 {
      k := FindFastest(c, p, upto - 1);
      var s := p.stations[At(p, upto - 1)];
      if s.inFlight < c.cap && (k == -1 || EstimatedDelay(c, s) < EstimatedDelay(c, p.stations[At(p, k)])) {
        k := upto - 1;
      }
    }
  }

  /** A choice exists in every state, and it is an offset exactly when some station is below its cap. */
  lemma ChoiceExists(c: Config, p: PoolState) returns (k: int)
    requires WellFormed(c, p)
    ensures Chosen(c, p, k)
    ensures k != -1 <==> HasCapacity(c, p)
    ensures -1 <= k < |p.stations|
  {
    k := FindIdle(p, |p.stations|);
    if k == -1 {
      k := FindFastest(c, p, |p.stations|);
      if k == -1 {
        if i :| 0 <= i < |p.stations| && p.stations[i].inFlight < c.cap {
          var o := CircleCovers(p, i);
          assert false;
        }
      }
    }
  }

  lemma ChoiceUnique(c: Config, p: PoolState, k: int, m: int)
    requires WellFormed(c, p) && Chosen(c, p, k) && Chosen(c, p, m)
    ensures k == m
  {
  }

  /** A measured station counts with its average, any other with the configured latency. */
  predicate CountsWith(c: Config, s: StationState, service: int) {
    service == if s.ewma > 0 then s.ewma else c.initialLatency
  }

  /** The choice is unmeasured and idle if any station is; otherwise it has room, and none with room is sooner done. */
  lemma ChoiceMeans(c: Config, p: PoolState, k: int, o: int, mine: int, other: int)
    requires WellFormed(c, p) && Chosen(c, p, k) && 0 <= k && 0 <= o < |p.stations|
    requires CountsWith(c, p.stations[At(p, k)], mine) && CountsWith(c, p.stations[At(p, o)], other)
    ensures var s, t := p.stations[At(p, k)], p.stations[At(p, o)];
            && (t.completed == t.inFlight == 0 ==> s.completed == s.inFlight == 0 && k <= o)
            && (!(s.completed == s.inFlight == 0) ==>
                  s.inFlight < c.cap
                  && (t.inFlight < c.cap ==> (s.inFlight + 1) * mine <= (t.inFlight + 1) * other))
  {
  }

  /** Of two measured stations with room and equal load the chosen one has no greater average, and conversely. */
  lemma FasterOrLessLoaded(c: Config, p: PoolState, k: int, o: int)
    requires WellFormed(c, p) && Chosen(c, p, k) && 0 <= k && 0 <= o < |p.stations|
    requires p.stations[At(p, o)].inFlight < c.cap && p.stations[At(p, k)].completed > 0
    requires p.stations[At(p, k)].ewma > 0 && p.stations[At(p, o)].ewma > 0
    ensures var s, t := p.stations[At(p, k)], p.stations[At(p, o)];
            && (s.inFlight == t.inFlight ==> s.ewma <= t.ewma)
            && (s.ewma == t.ewma ==> s.inFlight <= t.inFlight)
  {
    var s, t := p.stations[At(p, k)], p.stations[At(p, o)];
    ChoiceMeans(c, p, k, o, s.ewma, t.ewma);
    if s.inFlight == t.inFlight && s.ewma > t.ewma { MoreTimes(s.inFlight + 1, t.ewma, s.ewma); }
    if s.ewma == t.ewma && s.inFlight > t.inFlight { MoreTimes(s.ewma, t.inFlight + 1, s.inFlight + 1); }
  }

  lemma MoreTimes(n: int, a: int, b: int)
    requires n > 0 && a < b
    ensures n * a < n * b && a * n < b * n
  {
  }

  // ---- runs ----

  datatype Event = Reserve(id: string) | Finish(id: string, elapsed: int, failed: bool)

  /** `active` maps each unfinished reservation to its station; `elapsed` is what finished on each station. */
  datatype Run = Run(pool: PoolState, active: map<string, int>, elapsed: seq<seq<int>>)

  function Start(n: nat): Run {
    Run(PoolState(seq(n, i => Fresh), {}, 0), map[], seq(n, i => []))
  }

  ghost predicate Step(c: Config, r: Run, e: Event, r': Run)
    requires 0 <= r.pool.cursor && |r.elapsed| == |r.pool.stations|
  {
    match e
    case Reserve(id) =>
      if r.pool.stations == [] || id in r.pool.seen || Chosen(c, r.pool, -1) then r' == r
      else exists k :: && 0 <= k < |r.pool.stations| && Chosen(c, r.pool, k)
                       && r' == Run(Reserved(r.pool, At(r.pool, k), id), r.active[id := At(r.pool, k)], r.elapsed)
    case Finish(id, elapsed, failed) =>
      && id in r.active && 0 <= r.active[id] < |r.pool.stations|
      && var i := r.active[id];
         r' == Run(r.pool.(stations := r.pool.stations[i := Finished(c, r.pool.stations[i], elapsed, failed)]),
                   r.active - {id}, r.elapsed[i := r.elapsed[i] + [elapsed]])
  }

  /** The unfinished reservations on station `i`. */
  function On(active: map<string, int>, i: int): set<string> {
    set id | id in active && active[id] == i
  }

  predicate Bounded(history: seq<int>, lo: int, hi: int) {
    forall e | e in history :: lo <= e <= hi
  }

  /** Between the smallest and the largest of the history: inside every interval that holds all of it. */
  ghost predicate Within(w: int, history: seq<int>) {
    forall lo, hi | Bounded(history, lo, hi) :: lo <= w <= hi
  }

  ghost predicate StationInv(c: Config, r: Run, i: int)
    requires 0 <= i < |r.pool.stations| == |r.elapsed|
  {
    var s := r.pool.stations[i];
    && 0 <= s.inFlight <= c.cap
    && s.inFlight == |On(r.active, i)|
    && s.completed == |r.elapsed[i]|
    && (r.elapsed[i] == [] ==> s.ewma == 0)
    && (r.elapsed[i] != [] ==> Within(s.ewma, r.elapsed[i]))
  }

  ghost predicate Inv(c: Config, r: Run) {
    && WellFormed(c, r.pool) && |r.elapsed| == |r.pool.stations|
    && r.active.Keys <= r.pool.seen
    && (forall id | id in r.active :: 0 <= r.active[id] < |r.pool.stations|)
    && Sum(r.pool.stations) == |r.active|
    && forall i | 0 <= i < |r.pool.stations| :: StationInv(c, r, i)
  }

  lemma StartInv(c: Config, n: nat)
    requires c.Valid() && n >= 1
    ensures Inv(c, Start(n))
  {
    SumFresh(n);
    forall i | 0 <= i < n ensures StationInv(c, Start(n), i) {
      assert On(map[], i) == {};
    }
  }

  lemma SumFresh(n: nat)
    ensures Sum(seq(n, i => Fresh)) == 0
  {
    if n > 0 {
      assert seq(n, i => Fresh)[..n - 1] == seq(n - 1, i => Fresh);
      SumFresh(n - 1);
    }
  }

  /** A convex combination of integers in a range, truncated to an integer, stays in the range. */
  lemma TruncateStaysWithin(alpha: real, a: int, b: int, lo: int, hi: int)
    requires 0.0 <= alpha <= 1.0 && lo <= a <= hi && lo <= b <= hi
    ensures lo <= Average(alpha, a, b) <= hi
  {
    Convex(alpha, 1.0 - alpha, a as real, b as real, lo as real, hi as real);
    TruncateMonotone(alpha * a as real + (1.0 - alpha) * b as real, lo, hi);
  }

  /** `average` gives the newest time the weight alpha and the running average the rest, less a fraction. */
  predicate Weighed(alpha: real, elapsed: int, ewma: int, average: int) {
    var exact := alpha * elapsed as real + (1.0 - alpha) * ewma as real;
    exact - 1.0 < average as real <= exact
  }

  lemma AverageWeighs(alpha: real, elapsed: int, ewma: int)
    requires 0.0 <= alpha <= 1.0 && elapsed >= 0 && ewma >= 0
    ensures Weighed(alpha, elapsed, ewma, Average(alpha, elapsed, ewma))
  {
    var exact := alpha * elapsed as real + (1.0 - alpha) * ewma as real;
    Convex(alpha, 1.0 - alpha, elapsed as real, ewma as real, 0.0, (elapsed + ewma) as real);
    TruncateFloors(exact);
  }

  lemma TruncateFloors(x: real)
    requires x >= 0.0
    ensures x - 1.0 < Truncate(x) as real <= x
  {
  }

  /** A finished reservation frees its place and is counted; the first time is the average, later ones weigh in. */
  lemma FinishMeans(c: Config, s: StationState, elapsed: int, failed: bool)
    requires c.Valid() && s.inFlight > 0 && s.ewma >= 0 && elapsed >= 0
    ensures var t := Finished(c, s, elapsed, failed);
            && t.inFlight == s.inFlight - 1 && t.completed == s.completed + 1
            && (failed ==> t.errors == s.errors + 1) && (!failed ==> t.errors == s.errors)
            && (s.ewma == 0 ==> t.ewma == elapsed)
            && (s.ewma > 0 ==> Weighed(c.alpha, elapsed, s.ewma, t.ewma))
  {
    hide Weighed, Average;
    AverageWeighs(c.alpha, elapsed, s.ewma);
  }

  lemma TruncateMonotone(x: real, lo: int, hi: int)
    requires lo as real <= x <= hi as real
    ensures lo <= Truncate(x) <= hi
  {
  }

  lemma Convex(v: real, w: real, a: real, b: real, lo: real, hi: real)
    requires v >= 0.0 && w >= 0.0 && v + w == 1.0 && lo <= a <= hi && lo <= b <= hi
    ensures lo <= v * a + w * b <= hi
  {
    calc {
      lo;
    == { assert v * lo + w * lo == (v + w) * lo == lo; }
      v * lo + w * lo;
    <= { Scale(v, lo, a); }
      v * a + w * lo;
    <= { Scale(w, lo, b); }
      v * a + w * b;
    }
    calc {
      v * a + w * b;
    <= { Scale(w, b, hi); }
      v * a + w * hi;
    <= { Scale(v, a, hi); }
      v * hi + w * hi;
    == { assert v * hi + w * hi == (v + w) * hi == hi; }
      hi;
    }
  }

  lemma Scale(w: real, a: real, b: real)
    requires w >= 0.0 && a <= b
    ensures w * a <= w * b
  {
    assert w * (b - a) >= 0.0;
  }

  lemma AverageStaysWithin(c: Config, s: StationState, history: seq<int>, elapsed: int, failed: bool)
    requires c.Valid()
    requires history == [] ==> s.ewma == 0
    requires history != [] ==> Within(s.ewma, history)
    ensures Within(Finished(c, s, elapsed, failed).ewma, history + [elapsed])
  {
    var after := Finished(c, s, elapsed, failed).ewma;
    forall lo, hi | Bounded(history + [elapsed], lo, hi)
      ensures lo <= after <= hi
    {
      assert elapsed in history + [elapsed];
      if s.ewma > 0 {
        assert forall e | e in history :: e in history + [elapsed];
        assert Bounded(history, lo, hi);
        TruncateStaysWithin(c.alpha, elapsed, s.ewma, lo, hi);
      }
    }
  }

  lemma FinishKeepsInv(c: Config, r: Run, e: Event, r': Run)
    requires Inv(c, r) && e.Finish? && Step(c, r, e, r')
    ensures Inv(c, r')
  {
    var i := r.active[e.id];
    var s := r.pool.stations[i];
    assert StationInv(c, r, i);
    assert e.id in On(r.active, i);
    assert On(r'.active, i) == On(r.active, i) - {e.id};
    assert s.inFlight > 0;
    SumUpdate(r.pool.stations, i, Finished(c, s, e.elapsed, e.failed));
    assert r.active.Keys == r'.active.Keys + {e.id};
    AverageStaysWithin(c, s, r.elapsed[i], e.elapsed, e.failed);
    forall j | 0 <= j < |r'.pool.stations| ensures StationInv(c, r', j) {
      assert StationInv(c, r, j);
      if j != i { assert On(r'.active, j) == On(r.active, j); }
    }
  }

  lemma ReservedStations(c: Config, r: Run, id: string, i: int, j: int)
    requires Inv(c, r) && id !in r.active && 0 <= i < |r.pool.stations| && r.pool.stations[i].inFlight < c.cap
    requires 0 <= j < |r.pool.stations|
    ensures StationInv(c, Run(Reserved(r.pool, i, id), r.active[id := i], r.elapsed), j)
  {
    assert StationInv(c, r, j);
    if j == i {
      assert On(r.active[id := i], i) == On(r.active, i) + {id};
    } else {
      assert On(r.active[id := i], j) == On(r.active, j);
    }
  }

  lemma ReservedWellFormed(c: Config, p: PoolState, id: string, i: int)
    requires WellFormed(c, p) && 0 <= i < |p.stations| && p.stations[i].inFlight < c.cap
    ensures WellFormed(c, Reserved(p, i, id))
  {
  }

  lemma ReservedSum(r: Run, id: string, i: int)
    requires 0 <= i < |r.pool.stations| && id !in r.active && Sum(r.pool.stations) == |r.active|
    ensures Sum(Reserved(r.pool, i, id).stations) == |r.active[id := i]|
  {
    var s := r.pool.stations[i];
    SumUpdate(r.pool.stations, i, s.(inFlight := s.inFlight + 1));
    assert r.active[id := i].Keys == r.active.Keys + {id};
  }

  lemma ReservedKeepsInv(c: Config, r: Run, id: string, i: int)
    requires Inv(c, r) && id !in r.pool.seen && 0 <= i < |r.pool.stations| && r.pool.stations[i].inFlight < c.cap
    ensures Inv(c, Run(Reserved(r.pool, i, id), r.active[id := i], r.elapsed))
  {
    ReservedWellFormed(c, r.pool, id, i);
    ReservedSum(r, id, i);
    var r' := Run(Reserved(r.pool, i, id), r.active[id := i], r.elapsed);
    forall j | 0 <= j < |r'.pool.stations| ensures StationInv(c, r', j) {
      ReservedStations(c, r, id, i, j);
    }
  }

  lemma ReserveKeepsInv(c: Config, r: Run, e: Event, r': Run)
    requires Inv(c, r) && e.Reserve? && Step(c, r, e, r')
    ensures Inv(c, r')
  {
    if r' != r {
      var k :| && 0 <= k < |r.pool.stations| && Chosen(c, r.pool, k)
               && r' == Run(Reserved(r.pool, At(r.pool, k), e.id), r.active[e.id := At(r.pool, k)], r.elapsed);
      ReservedKeepsInv(c, r, e.id, At(r.pool, k));
    }
  }

  lemma StepKeepsInv(c: Config, r: Run, e: Event, r': Run)
    requires Inv(c, r) && Step(c, r, e, r')
    ensures Inv(c, r')
  {
    if e.Reserve? { ReserveKeepsInv(c, r, e, r'); } else { FinishKeepsInv(c, r, e, r'); }
  }

  /** `r'` follows from `r` by the events in order. */
  ghost predicate Runs(c: Config, r: Run, es: seq<Event>, r': Run)
    decreases |es|
  {
    if es == [] then r' == r
    else exists m :: CanStep(c, r, es[0], m) && Runs(c, m, es[1..], r')
  }

  ghost predicate CanStep(c: Config, r: Run, e: Event, r': Run) {
    0 <= r.pool.cursor && |r.elapsed| == |r.pool.stations| && Step(c, r, e, r')
  }

  /** Reached from a fresh pool of `n` stations. */
  ghost predicate Reachable(c: Config, n: nat, r: Run) {
    c.Valid() && n >= 1 && exists es :: Runs(c, Start(n), es, r)
  }

  lemma {:induction false} RunsKeepInv(c: Config, r: Run, es: seq<Event>, r': Run)
    requires Inv(c, r) && Runs(c, r, es, r')
    ensures Inv(c, r') && r.pool.seen <= r'.pool.seen
    ensures |r'.pool.stations| == |r.pool.stations|
    decreases |es|
  {
    if es != [] {
      var m :| CanStep(c, r, es[0], m) && Runs(c, m, es[1..], r');
      StepKeepsInv(c, r, es[0], m);
      RunsKeepInv(c, m, es[1..], r');
    }
  }

  lemma ReachableInv(c: Config, n: nat, r: Run)
    requires Reachable(c, n, r)
    ensures Inv(c, r) && |r.pool.stations| == n
  {
    var es :| Runs(c, Start(n), es, r);
    StartInv(c, n);
    RunsKeepInv(c, Start(n), es, r);
  }

  // ---- what every run guarantees ----

  /**
    Caps hold, the load is exactly the unfinished reservations, and whoever
    finishes has been counted, so finish never meets a zero.
   */
  lemma LoadIsExact(c: Config, n: nat, r: Run)
    requires Reachable(c, n, r)
    ensures |r.pool.stations| == n && Sum(r.pool.stations) == |r.active|
    ensures forall i | 0 <= i < n :: 0 <= r.pool.stations[i].inFlight <= c.cap
    ensures forall id | id in r.active :: 0 <= r.active[id] < n && r.pool.stations[r.active[id]].inFlight > 0
  {
    ReachableInv(c, n, r);
    forall id | id in r.active ensures 0 <= r.active[id] < n && r.pool.stations[r.active[id]].inFlight > 0 {
      assert StationInv(c, r, r.active[id]);
      assert id in On(r.active, r.active[id]);
    }
    forall i | 0 <= i < n ensures 0 <= r.pool.stations[i].inFlight <= c.cap { assert StationInv(c, r, i); }
  }

  /** Each average lies between the least and the greatest time finished on its station. */
  lemma AverageWithinObserved(c: Config, n: nat, r: Run, i: int)
    requires Reachable(c, n, r) && 0 <= i < |r.pool.stations|
    ensures |r.elapsed| == |r.pool.stations| && r.pool.stations[i].completed == |r.elapsed[i]|
    ensures r.elapsed[i] != [] ==> Within(r.pool.stations[i].ewma, r.elapsed[i])
  {
    ReachableInv(c, n, r);
    assert StationInv(c, r, i);
  }

  /** A reservation is admitted exactly when its id is new and some station has room; otherwise nothing changes. */
  lemma AdmittedIffRoom(c: Config, n: nat, r: Run, id: string, r': Run)
    requires Reachable(c, n, r) && CanStep(c, r, Reserve(id), r')
    ensures (r' != r) <==> id !in r.pool.seen && HasCapacity(c, r.pool)
    ensures (r' != r) <==> id !in r.pool.seen && Sum(r.pool.stations) < n * c.cap
    ensures r' != r ==>
              && id !in r.active && id in r'.active && r'.active - {id} == r.active
              && r'.pool.seen == r.pool.seen + {id}
  {
    ReachableInv(c, n, r);
    FullIffSum(c, r.pool.stations);
    var k := ChoiceExists(c, r.pool);
    if k == -1 {
      assert Chosen(c, r.pool, -1);
    } else if Chosen(c, r.pool, -1) {
      ChoiceUnique(c, r.pool, k, -1);
    }
  }

  lemma FullIffSum(c: Config, s: seq<StationState>)
    requires forall i | 0 <= i < |s| :: s[i].inFlight <= c.cap
    ensures Sum(s) <= |s| * c.cap
    ensures Sum(s) < |s| * c.cap <==> exists i :: 0 <= i < |s| && s[i].inFlight < c.cap
  {
    if s != [] {
      FullIffSum(c, s[..|s| - 1]);
      assert |s| * c.cap == (|s| - 1) * c.cap + c.cap;
      if i :| 0 <= i < |s| && s[i].inFlight < c.cap {
        if i < |s| - 1 { assert s[..|s| - 1][i].inFlight < c.cap; }
      }
    }
  }

  /** An admitted id stays used for ever: no later event admits it again. */
  lemma AdmittedOnce(c: Config, n: nat, r: Run, id: string, m: Run, es: seq<Event>, u: Run, v: Run)
    requires Reachable(c, n, r) && CanStep(c, r, Reserve(id), m) && m != r
    requires Runs(c, m, es, u) && CanStep(c, u, Reserve(id), v)
    ensures v == u
  {
    ReachableInv(c, n, r);
    StepKeepsInv(c, r, Reserve(id), m);
    AdmittedIffRoom(c, n, r, id, m);
    RunsKeepInv(c, m, es, u);
  }

  // ---- fairness from a fresh pool ----

  /** `k` reservations dealt out in rounds: the first `k % n` stations hold one more than the rest. */
  ghost predicate Dealt(c: Config, p: PoolState, n: nat, k: nat)
    requires n >= 1
  {
    && |p.stations| == n && p.cursor == k % n
    && forall i | 0 <= i < n :: p.stations[i] == StationState(k / n + (if i < k % n then 1 else 0), 0, 0, 0)
  }

  lemma NextRound(n: nat, k: nat)
    requires n >= 1
    ensures (k + 1) / n == (if k % n == n - 1 then k / n + 1 else k / n)
    ensures (k + 1) % n == (if k % n == n - 1 then 0 else k % n + 1)
    ensures (k % n + 1) % n == (k + 1) % n
  {
    var q, m := k / n, k % n;
    assert k == n * q + m;
    if m == n - 1 {
      assert k + 1 == n * (q + 1);
      DivUnique(n, k + 1, q + 1, 0);
    } else {
      DivUnique(n, k + 1, q, m + 1);
    }
    ModOnce(m + 1, n);
  }

  lemma DivUnique(n: nat, a: nat, q: nat, m: nat)
    requires n >= 1 && a == n * q + m && m < n
    ensures a / n == q && a % n == m
  {
    var x := a / n - q;
    assert n * (a / n - q) == m - a % n;
    assert -(n as int) < n * x < n;
    assert -1 < x < 1;
  }

  lemma RoundBounds(c: Config, n: nat, k: nat)
    requires c.cap >= 1 && n >= 1 && k < n * c.cap
    ensures 0 <= k / n < c.cap && 0 <= k % n < n
    ensures k < n ==> k / n == 0 && k % n == k
    ensures k >= n ==> k / n >= 1
  {
    var q, m := k / n, k % n;
    assert k == n * q + m;
    if k < n { DivUnique(n, k, 0, k); }
    assert n * q < n * c.cap;
    assert q < c.cap;
  }

  lemma LessLoadIsFaster(c: Config, s: StationState, t: StationState)
    requires c.Valid() && s.ewma == t.ewma == 0 && s.inFlight <= t.inFlight
    ensures EstimatedDelay(c, s) <= EstimatedDelay(c, t)
  {
    assert (t.inFlight - s.inFlight) * c.initialLatency >= 0;
  }

  lemma DealtChoosesCursor(c: Config, p: PoolState, n: nat, k: nat)
    requires c.Valid() && n >= 1 && Dealt(c, p, n, k) && k < n * c.cap
    ensures WellFormed(c, p) && Chosen(c, p, 0) && At(p, 0) == k % n
  {
    RoundBounds(c, n, k);
    var q, m := k / n, k % n;
    ModOnce(m, n);
    assert forall i | 0 <= i < n :: p.stations[i] == StationState(q + (if i < m then 1 else 0), 0, 0, 0);
    assert p.stations[At(p, 0)] == StationState(q, 0, 0, 0);
    if k < n {
      assert FirstIdle(p, 0);
    } else {
      forall o | 0 <= o < n ensures EstimatedDelay(c, p.stations[At(p, 0)]) <= EstimatedDelay(c, p.stations[At(p, o)]) {
        LessLoadIsFaster(c, p.stations[At(p, 0)], p.stations[At(p, o)]);
      }
      assert forall o | 0 <= o < n :: !Idle(p.stations[At(p, o)]);
      assert FirstFastest(c, p, 0);
    }
  }

  lemma DealtNext(c: Config, p: PoolState, n: nat, k: nat, id: string)
    requires n >= 1 && Dealt(c, p, n, k)
    ensures k % n < n && Dealt(c, Reserved(p, k % n, id), n, k + 1)
  {
    NextRound(n, k);
    var p' := Reserved(p, k % n, id);
    var q, m := k / n, k % n;
    forall i | 0 <= i < n
      ensures p'.stations[i] == StationState((k + 1) / n + (if i < (k + 1) % n then 1 else 0), 0, 0, 0)
    {
      assert p.stations[i] == StationState(q + (if i < m then 1 else 0), 0, 0, 0);
    }
  }

  lemma DealtStep(c: Config, n: nat, k: nat, m: Run, id: string, r: Run)
    requires c.Valid() && n >= 1 && Dealt(c, m.pool, n, k) && k < n * c.cap
    requires id !in m.pool.seen && CanStep(c, m, Reserve(id), r)
    ensures 0 <= k % n < n && r == Run(Reserved(m.pool, k % n, id), m.active[id := k % n], m.elapsed)
  {
    DealtChoosesCursor(c, m.pool, n, k);
    if Chosen(c, m.pool, -1) { ChoiceUnique(c, m.pool, 0, -1); }
    var j :| && 0 <= j < |m.pool.stations| && Chosen(c, m.pool, j)
             && r == Run(Reserved(m.pool, At(m.pool, j), id), m.active[id := At(m.pool, j)], m.elapsed);
    ChoiceUnique(c, m.pool, 0, j);
  }

  function Reserves(ids: seq<string>): seq<Event> {
    seq(|ids|, i requires 0 <= i < |ids| => Reserve(ids[i]))
  }

  /** Where reservation number `i` of a fresh pool of `n` goes. */
  function Slot(i: nat, n: nat): nat
    requires n >= 1
  {
    i % n
  }

  /** Exactly these ids are active, number `i` of them at its slot. */
  ghost predicate DealtTo(n: nat, ids: seq<string>, active: map<string, int>)
    requires n >= 1
  {
    && active.Keys == (set id | id in ids)
    && forall i | 0 <= i < |ids| :: active[ids[i]] == Slot(i, n)
  }

  lemma DealtToNext(n: nat, init: seq<string>, last: string, active: map<string, int>)
    requires n >= 1 && last !in init && DealtTo(n, init, active)
    ensures DealtTo(n, init + [last], active[last := Slot(|init|, n)])
  {
    var ids, after := init + [last], active[last := Slot(|init|, n)];
    assert (set id | id in ids) == (set id | id in init) + {last};
    forall i | 0 <= i < |ids| ensures after[ids[i]] == Slot(i, n) {
      if i < |init| { assert ids[i] == init[i] && init[i] in init; }
    }
  }

  lemma OneMoreDealt(c: Config, n: nat, init: seq<string>, last: string, m: Run, r: Run)
    requires c.Valid() && n >= 1 && last !in init && |init| < n * c.cap
    requires Dealt(c, m.pool, n, |init|) && DealtTo(n, init, m.active) && m.pool.seen == m.active.Keys
    requires CanStep(c, m, Reserve(last), r)
    ensures Dealt(c, r.pool, n, |init| + 1)
    ensures DealtTo(n, init + [last], r.active) && r.pool.seen == r.active.Keys
  {
    hide Dealt, CanStep;
    DealtStep(c, n, |init|, m, last, r);
    DealtNext(c, m.pool, n, |init|, last);
    DealtToNext(n, init, last, m.active);
  }

  lemma NothingDealt(c: Config, n: nat)
    requires n >= 1
    ensures Dealt(c, Start(n).pool, n, 0) && DealtTo(n, [], Start(n).active)
  {
    DivUnique(n, 0, 0, 0);
  }

  /** Reservation number `k` goes to station `k % n`, whatever the ids, as long as capacity lasts. */
  lemma {:induction false} RoundRobinFromFresh(c: Config, n: nat, ids: seq<string>, r: Run)
    requires c.Valid() && n >= 1 && Distinct(ids) && |ids| <= n * c.cap
    requires Runs(c, Start(n), Reserves(ids), r)
    ensures Dealt(c, r.pool, n, |ids|)
    ensures DealtTo(n, ids, r.active) && r.pool.seen == r.active.Keys
    decreases |ids|
  {
    hide Dealt, DealtTo, CanStep;
    if ids == [] {
      NothingDealt(c, n);
    } else {
      var init, last := ids[..|ids| - 1], ids[|ids| - 1];
      assert init + [last] == ids && last !in init;
      var m := SplitLast(c, Start(n), Reserves(ids), r);
      assert Reserves(ids)[..|ids| - 1] == Reserves(init);
      RoundRobinFromFresh(c, n, init, m);
      OneMoreDealt(c, n, init, last, m, r);
    }
  }

  /** The first `n` picks fall on `n` different stations. */
  lemma FirstPicksDistinct(c: Config, n: nat, ids: seq<string>, r: Run, i: nat, j: nat)
    requires c.Valid() && n >= 1 && Distinct(ids) && |ids| <= n * c.cap
    requires Runs(c, Start(n), Reserves(ids), r)
    requires i < j < |ids| && j < n
    ensures ids[i] in r.active && ids[j] in r.active && r.active[ids[i]] != r.active[ids[j]]
  {
    RoundRobinFromFresh(c, n, ids, r);
    assert r.active[ids[i]] == Slot(i, n) && r.active[ids[j]] == Slot(j, n);
    ModOnce(i, n);
    ModOnce(j, n);
  }

  lemma {:induction false} SplitLast(c: Config, r: Run, es: seq<Event>, r': Run) returns (m: Run)
    requires es != [] && Runs(c, r, es, r')
    ensures Runs(c, r, es[..|es| - 1], m) && CanStep(c, m, es[|es| - 1], r')
    decreases |es|
  {
    var h :| CanStep(c, r, es[0], h) && Runs(c, h, es[1..], r');
    if |es| == 1 {
      m := r;
    } else {
      m := SplitLast(c, h, es[1..], r');
      assert es[1..][..|es| - 2] == es[..|es| - 1][1..];
    }
  }
}
