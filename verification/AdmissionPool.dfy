/**
  The load-aware admission pool over stations (internal/lifetrastation/adaptive.go):
  caps, exploration before exploitation, least-estimated-delay routing and an
  exponentially weighted latency average.  Durations are integers of nanoseconds.
 */
module AdmissionPool {
  import opened Common

  datatype Config = Config(cap: int, initialLatency: int, alpha: real) {
    /** What `normalized` guarantees. */
    predicate Valid() {
      cap >= 1 && initialLatency > 0 && 0.0 < alpha <= 1.0
    }
  }

  datatype ConfigError = CapNotPositive | AlphaOutOfRange

  /** Defaults for absent settings, then the range checks. */
  function Normalized(c: Config): (r: Result<Config, ConfigError>)
    ensures r.Ok? <==> c.cap >= 1 && 0.0 <= c.alpha <= 1.0
    ensures r.Ok? ==> r.value.Valid() && r.value.cap == c.cap
    ensures c.Valid() ==> r == Ok(c)
    ensures r.Ok? ==> r.value.initialLatency == (if c.initialLatency > 0 then c.initialLatency else 250_000)
    ensures r.Ok? ==> r.value.alpha == (if c.alpha > 0.0 then c.alpha else 0.20)
  {
    if c.cap < 1 then Err(CapNotPositive)
    else
      var latency := if c.initialLatency <= 0 then 250_000 else c.initialLatency;
      var alpha := if c.alpha == 0.0 then 0.20 else c.alpha;
      if alpha <= 0.0 || alpha > 1.0 then Err(AlphaOutOfRange)
      else Ok(Config(c.cap, latency, alpha))
  }

  datatype StationState = StationState(inFlight: int, completed: int, errors: int, ewma: int)

  const Fresh := StationState(0, 0, 0, 0)

  datatype PoolState = PoolState(stations: seq<StationState>, seen: set<string>, cursor: int)

  datatype PoolError = EmptyPool | DuplicateRequest | Backpressure(inFlight: int, capacity: int, retryAfter: int)

  /** Go's float-to-integer conversion drops the fraction. */
  function Truncate(x: real): int {
    if x >= 0.0 then x.Floor else -((-x).Floor)
  }

  /** The weighted average of a new time and the running one, as a whole number of nanoseconds. */
  function Average(alpha: real, elapsed: int, ewma: int): int {
    Truncate(alpha * elapsed as real + (1.0 - alpha) * ewma as real)
  }

  function ServiceTime(c: Config, s: StationState): int {
    if s.ewma <= 0 then c.initialLatency else s.ewma
  }

  function EstimatedDelay(c: Config, s: StationState): int {
    (s.inFlight + 1) * ServiceTime(c, s)
  }

  function Finished(c: Config, s: StationState, elapsed: int, failed: bool): StationState {
    StationState(
      if s.inFlight > 0 then s.inFlight - 1 else s.inFlight,
      s.completed + 1,
      if failed then s.errors + 1 else s.errors,
      if s.ewma <= 0 then elapsed else Average(c.alpha, elapsed, s.ewma))
  }

  // ---- the routing choice, stated without the loops ----

  predicate Idle(s: StationState) {
    s.completed == 0 && s.inFlight == 0
  }

  /** The station `offset` places after the cursor, in circular order. */
  function At(p: PoolState, offset: int): (i: int)
    requires p.stations != [] && 0 <= p.cursor && 0 <= offset
    ensures 0 <= i < |p.stations|
  {
    (p.cursor + offset) % |p.stations|
  }

  ghost predicate FirstIdle(p: PoolState, k: int)
    requires p.stations != [] && 0 <= p.cursor
  {
    && 0 <= k < |p.stations|
    && Idle(p.stations[At(p, k)])
    && forall o | 0 <= o < k :: !Idle(p.stations[At(p, o)])
  }

  /**
    Station `k` places on is under its cap, no slower than any other under its cap, and
    strictly faster than earlier ones.
   */
  ghost predicate FirstFastest(c: Config, p: PoolState, k: int)
    requires p.stations != [] && 0 <= p.cursor
  {
    && 0 <= k < |p.stations|
    && p.stations[At(p, k)].inFlight < c.cap
    && forall o | 0 <= o < |p.stations| && p.stations[At(p, o)].inFlight < c.cap ::
         && EstimatedDelay(c, p.stations[At(p, k)]) <= EstimatedDelay(c, p.stations[At(p, o)])
         && (o < k ==> EstimatedDelay(c, p.stations[At(p, k)]) < EstimatedDelay(c, p.stations[At(p, o)]))
  }

  /** Offset `k` is the routing choice; -1 when there is none. */
  ghost predicate Chosen(c: Config, p: PoolState, k: int)
    requires 0 <= p.cursor
  {
    if p.stations == [] then k == -1
    else
      || FirstIdle(p, k)
      || ((forall o | 0 <= o < |p.stations| :: !Idle(p.stations[At(p, o)])) && FirstFastest(c, p, k))
      || (k == -1 && forall o | 0 <= o < |p.stations| ::
          !Idle(p.stations[At(p, o)]) && p.stations[At(p, o)].inFlight >= c.cap)
  }

  function Reserved(p: PoolState, i: int, id: string): PoolState
    requires 0 <= i < |p.stations|
  {
    PoolState(p.stations[i := p.stations[i].(inFlight := p.stations[i].inFlight + 1)], p.seen + {id},
              (i + 1) % |p.stations|)
  }

  function Sum(s: seq<StationState>): int {
    if s == [] then 0 else Sum(s[..|s| - 1]) + s[|s| - 1].inFlight
  }

  lemma SumUpdate(s: seq<StationState>, i: int, v: StationState)
    requires 0 <= i < |s|
    ensures Sum(s[i := v]) == Sum(s) - s[i].inFlight + v.inFlight
  {
    if i < |s| - 1 {
      assert s[i := v][..|s| - 1] == s[..|s| - 1][i := v];
      SumUpdate(s[..|s| - 1], i, v);
    } else {
      assert s[i := v][..|s| - 1] == s[..|s| - 1];
    }
  }

  lemma ModOnce(a: int, n: int)
    requires n > 0 && 0 <= a < 2 * n
    ensures a % n == if a < n then a else a - n
  {
    var q := a / n;
    assert a == q * n + a % n;
  }

  /** Every station is some number of places, less than the pool's size, after the cursor. */
  lemma CircleCovers(p: PoolState, i: int) returns (o: int)
    requires p.stations != [] && 0 <= p.cursor < |p.stations| && 0 <= i < |p.stations|
    ensures 0 <= o < |p.stations| && At(p, o) == i
  {
    o := if i >= p.cursor then i - p.cursor else i - p.cursor + |p.stations|;
    ModOnce(p.cursor + o, |p.stations|);
  }

  /** The mutable per-station record. */
  class AdaptiveStation {
    var inFlight: int
    var completed: int
    var errors: int
    var ewma: int

    constructor ()
      ensures View() == Fresh
    {
      inFlight, completed, errors, ewma := 0, 0, 0, 0;
    }

    function View(): StationState
      reads this
    {
      StationState(inFlight, completed, errors, ewma)
    }
  }

  class AdaptivePool {
    const config: Config
    var stations: seq<AdaptiveStation>
    var seen: set<string>
    var cursor: int

    ghost predicate Valid()
      reads this, stations
    {
      && config.Valid()
      && Distinct(stations)
      && (if stations == [] then cursor >= 0 else 0 <= cursor < |stations|)
    }

    function View(): PoolState
      reads this, stations
    {
      PoolState(seq(|stations|, i requires 0 <= i < |stations| reads this, stations => stations[i].View()), seen,
                cursor)
    }

    constructor (config: Config, size: int)
      requires config.Valid() && size >= 1
      ensures Valid() && this.config == config && fresh(stations)
      ensures View() == PoolState(seq(size, i => Fresh), {}, 0)
    {
      this.config := config;
      stations, seen, cursor := [], {}, 0;
      new;
      for i := 0 to size
        invariant |stations| == i && Distinct(stations) && seen == {} && cursor == 0
        invariant fresh(stations)
        invariant forall j | 0 <= j < i :: stations[j].View() == Fresh
      {
        var s := new AdaptiveStation();
        stations := stations + [s];
      }
    }

    /** The two index loops over the circle; returns the index, or -1. */
    method ChooseStation() returns (index: int)
      requires Valid()
      ensures index == -1 ==> Chosen(config, View(), -1)
      ensures index != -1 ==> exists k :: 0 <= k < |stations| && index == At(View(), k) && Chosen(config, View(), k)
    {
      if |stations| == 0 { return -1; }
      var n := |stations|;
      for offset := 0 to n
        invariant forall o | 0 <= o < offset :: !Idle(View().stations[At(View(), o)])
      {
        index := (cursor + offset) % n;
        var state := stations[index];
        assert View().stations[index] == state.View() && index == At(View(), offset);
        if state.completed == 0 && state.inFlight == 0 {
          assert FirstIdle(View(), offset);
          return;
        }
      }
      var best, bestScore := -1, 0;
      ghost var k := -1;
      for offset := 0 to n
        invariant best == -1 <==> k == -1
        invariant k == -1 ==> forall o | 0 <= o < offset :: View().stations[At(View(), o)].inFlight >= config.cap
        invariant k != -1 ==>
                    && 0 <= k < offset && best == At(View(), k)
                    && View().stations[best].inFlight < config.cap
                    && bestScore == EstimatedDelay(config, View().stations[best])
        invariant k != -1 ==> forall o | 0 <= o < offset && View().stations[At(View(), o)].inFlight < config.cap ::
                    && bestScore <= EstimatedDelay(config, View().stations[At(View(), o)])
                    && (o < k ==> bestScore < EstimatedDelay(config, View().stations[At(View(), o)]))
      {
        index := (cursor + offset) % n;
        var state := stations[index];
        assert View().stations[index] == state.View() && index == At(View(), offset);
        if state.inFlight >= config.cap { continue; }
        var service := if state.ewma <= 0 then config.initialLatency else state.ewma;
        var score := (state.inFlight + 1) * service;
        assert score == EstimatedDelay(config, state.View());
        if best < 0 || score < bestScore {
          best, bestScore, k := index, score, offset;
        }
      }
      if best != -1 {
        assert FirstFastest(config, View(), k);
      }
      return best;
    }

    method Reserve(id: string) returns (r: Result<AdaptiveStation, PoolError>)
      requires Valid()
      modifies this`seen, this`cursor, stations
      ensures Valid() && stations == old(stations)
      ensures r.Err? ==> View() == old(View())
      ensures old(stations) == [] ==> r == Err(EmptyPool)
      ensures old(stations) != [] && id in old(seen) ==> r == Err(DuplicateRequest)
      ensures old(stations) != [] && id !in old(seen) ==>
                if r.Err? then Chosen(config, old(View()), -1) && r.error.Backpressure?
                  && BackpressureReport(config, old(View()), r.error)
                else exists k :: && 0 <= k < |stations| && Chosen(config, old(View()), k)
                                 && r.value == stations[At(old(View()), k)]
                                 && View() == Reserved(old(View()), At(old(View()), k), id)
    {
      if |stations| == 0 { return Err(EmptyPool); }
      if id in seen { return Err(DuplicateRequest); }
      var index := ChooseStation();
      if index < 0 {
        var e := ReportBackpressure();
        return Err(e);
      }
      ghost var before := View();
      ghost var k :| 0 <= k < |stations| && index == At(before, k) && Chosen(config, before, k);
      var state := stations[index];
      state.inFlight := state.inFlight + 1;
      seen := seen + {id};
      cursor := (index + 1) % |stations|;
      assert View() == Reserved(before, At(before, k), id);
      return Ok(state);
    }

    method ReportBackpressure() returns (e: PoolError)
      requires Valid() && stations != []
      ensures BackpressureReport(config, View(), e)
    {
      var inFlight, retryAfter := 0, 0;
      for i := 0 to |stations|
        invariant inFlight == Sum(View().stations[..i])
        invariant i > 0 ==> exists j :: 0 <= j < i && retryAfter == ServiceTime(config, View().stations[j])
        invariant i == 0 ==> retryAfter == 0
        invariant forall j | 0 <= j < i :: retryAfter <= ServiceTime(config, View().stations[j])
      {
        var state := stations[i];
        assert View().stations[..i + 1][..i] == View().stations[..i];
        assert View().stations[i] == state.View();
        inFlight := inFlight + state.inFlight;
        var service := if state.ewma <= 0 then config.initialLatency else state.ewma;
        if retryAfter == 0 || service < retryAfter {
          retryAfter := service;
        }
      }
      assert View().stations[..|stations|] == View().stations;
      if retryAfter <= 0 { retryAfter := 1_000; }
      return Backpressure(inFlight, |stations| * config.cap, retryAfter);
    }

    /** Records the end of one call on `state`, which may outlive the pool's own list. */
    method Finish(state: AdaptiveStation, elapsed: int, failed: bool)
      modifies state
      ensures state.View() == Finished(config, old(state.View()), elapsed, failed)
    {
      if state.inFlight > 0 {
        state.inFlight := state.inFlight - 1;
      }
      state.completed := state.completed + 1;
      if failed {
        state.errors := state.errors + 1;
      }
      if state.ewma <= 0 {
        state.ewma := elapsed;
        return;
      }
      state.ewma := Average(config.alpha, elapsed, state.ewma);
    }

    method Close()
      requires Valid()
      modifies this`stations
      ensures Valid() && stations == [] && seen == old(seen)
    {
      stations := [];
    }
  }

  /** The refusal reports the whole load, the whole capacity, and the fastest station's service time. */
  ghost predicate BackpressureReport(c: Config, p: PoolState, e: PoolError) {
    && e.Backpressure? && e.inFlight == Sum(p.stations) && e.capacity == |p.stations| * c.cap
    && (exists j :: 0 <= j < |p.stations| && e.retryAfter == ServiceTime(c, p.stations[j]))
    && forall j | 0 <= j < |p.stations| :: e.retryAfter <= ServiceTime(c, p.stations[j])
  }
}
