/** The per-provider circuit breaker: a three-state machine that refines a rule over the history
    of its calls. */
module CircuitBreakers {
  import opened Common

  type Name = string

  datatype State = Closed | Open | HalfOpen

  datatype Config = Config(threshold: int, resetTimeout: int)

  datatype Breaker = Breaker(state: State, failures: nat, lastFailure: int)

  function NewBreaker(): Breaker { Breaker(Closed, 0, 0) }

  function Asked(b: Breaker, now: int, cfg: Config): (Breaker, bool)
  {
    match b.state
    case Closed => (b, true)
    case Open => if now - b.lastFailure > cfg.resetTimeout then (b.(state := HalfOpen), true) else (b, false)
    case HalfOpen => (b, true)
  }

  function Succeeded(b: Breaker): Breaker { b.(state := Closed, failures := 0) }

  function Failed(b: Breaker, now: int, cfg: Config): Breaker
  {
    Breaker(if b.failures + 1 >= cfg.threshold then Open else b.state, b.failures + 1, now)
  }

  /** The calls of one breaker, in the order they take its lock. */
  datatype Event = Ask(now: int) | Success | Failure(now: int)

  function After(b: Breaker, e: Event, cfg: Config): Breaker
  {
    match e
    case Ask(now) => Asked(b, now, cfg).0
    case Success => Succeeded(b)
    case Failure(now) => Failed(b, now, cfg)
  }

  function Replay(events: seq<Event>, cfg: Config): Breaker
  {
    if events == [] then NewBreaker() else After(Replay(events[..|events| - 1], cfg), events[|events| - 1], cfg)
  }

  lemma ReplayAppend(events: seq<Event>, e: Event, cfg: Config)
    ensures Replay(events + [e], cfg) == After(Replay(events, cfg), e, cfg)
  {
    assert (events + [e])[..|events|] == events;
  }

  // ---- the stateless rule ----

  function FailuresSinceSuccess(events: seq<Event>): nat
  {
    if events == [] then 0
    else
      match events[|events| - 1]
      case Success => 0
      case Failure(_) => FailuresSinceSuccess(events[..|events| - 1]) + 1
      case Ask(_) => FailuresSinceSuccess(events[..|events| - 1])
  }

  function LastFailure(events: seq<Event>): Option<int>
  {
    if events == [] then None
    else if events[|events| - 1].Failure? then Some(events[|events| - 1].now)
    else LastFailure(events[..|events| - 1])
  }

  /** Let a request through while failures are below the threshold, or once the last one is old enough. */
  predicate Rule(events: seq<Event>, now: int, cfg: Config)
  {
    FailuresSinceSuccess(events) < cfg.threshold
    || (LastFailure(events).Some? && now - LastFailure(events).value > cfg.resetTimeout)
  }

  /** Clock readings under one lock never run backwards. */
  predicate Timed(events: seq<Event>)
  {
    forall i, j | 0 <= i < j < |events| && !events[i].Success? && !events[j].Success? :: events[i].now <= events[j].now
  }

  lemma TimedPrefix(events: seq<Event>)
    requires Timed(events) && events != []
    ensures Timed(events[..|events| - 1])
  {
  }

  /** The fields after any history say exactly what the rule needs to know. */
  lemma {:induction false} StateTellsHistory(events: seq<Event>, cfg: Config)
    requires cfg.threshold >= 1 && Timed(events)
    ensures var b := Replay(events, cfg);
            && b.failures == FailuresSinceSuccess(events)
            && (b.state.Closed? <==> FailuresSinceSuccess(events) < cfg.threshold)
            && (LastFailure(events).Some? ==> b.lastFailure == LastFailure(events).value)
            && (LastFailure(events).None? ==> b.failures == 0)
            && (b.state.HalfOpen? ==>
                  exists k | 0 <= k < |events| :: events[k].Ask? && events[k].now - b.lastFailure > cfg.resetTimeout)
  {
    if events != [] {
      var front, e := events[..|events| - 1], events[|events| - 1];
      TimedPrefix(events);
      StateTellsHistory(front, cfg);
      var b := Replay(front, cfg);
      if e.Ask? && After(b, e, cfg).state.HalfOpen? {
        if b.state.HalfOpen? {
          var k :| 0 <= k < |front| && front[k].Ask? && front[k].now - b.lastFailure > cfg.resetTimeout;
          assert events[k] == front[k];
        } else {
          assert events[|events| - 1].now - b.lastFailure > cfg.resetTimeout;
        }
      }
    }
  }

  /** The breaker refines the stateless rule: under any interleaving of its locked methods, it is
      closed exactly while failures since the last success are below the threshold, and lets a
      request through exactly when the rule does. */
  lemma BreakerRefinesRule(events: seq<Event>, now: int, cfg: Config)
    requires cfg.threshold >= 1 && Timed(events + [Ask(now)])
    ensures Replay(events, cfg).state.Closed? <==> FailuresSinceSuccess(events) < cfg.threshold
    ensures Asked(Replay(events, cfg), now, cfg).1 <==> Rule(events, now, cfg)
  {
    assert (events + [Ask(now)])[..|events + [Ask(now)]| - 1] == events;
    TimedPrefix(events + [Ask(now)]);
    StateTellsHistory(events, cfg);
    var b := Replay(events, cfg);
    if b.state.HalfOpen? {
      var k :| 0 <= k < |events| && events[k].Ask? && events[k].now - b.lastFailure > cfg.resetTimeout;
      assert (events + [Ask(now)])[k] == events[k] && (events + [Ask(now)])[|events|] == Ask(now);
    }
  }

  /** The threshold must be at least one: otherwise a new breaker is closed with no failures,
      which the rule does not call below the threshold. */
  lemma RefinementNeedsPositiveThreshold(cfg: Config)
    ensures (forall events, now :: Timed(events + [Ask(now)]) ==>
               (Asked(Replay(events, cfg), now, cfg).1 <==> Rule(events, now, cfg)))
            <==> cfg.threshold >= 1
  {
    if cfg.threshold >= 1 {
      forall events, now | Timed(events + [Ask(now)])
        ensures Asked(Replay(events, cfg), now, cfg).1 <==> Rule(events, now, cfg)
      {
        BreakerRefinesRule(events, now, cfg);
      }
    } else {
      var none: seq<Event> := [];
      assert Timed(none + [Ask(0)]) && Asked(Replay(none, cfg), 0, cfg).1 && !Rule(none, 0, cfg);
    }
  }

  class CircuitBreaker {
    var state: State
    var failures: nat
    var lastFailure: int
    const config: Config

    function View(): Breaker
      reads this
    {
      Breaker(state, failures, lastFailure)
    }

    constructor (config: Config)
      ensures View() == NewBreaker() && this.config == config
    {
      state, failures, lastFailure := Closed, 0, 0;
      this.config := config;
    }

    method Allow(now: int) returns (allowed: bool)
      modifies this
      ensures (View(), allowed) == Asked(old(View()), now, config)
    {
      match state
      case Closed =>
        allowed := true;
      case Open =>
        if now - lastFailure > config.resetTimeout {
          state := HalfOpen;
          return true;
        }
        allowed := false;
      case HalfOpen =>
        allowed := true;
    }

    method RecordSuccess()
      modifies this
      ensures View() == Succeeded(old(View()))
    {
      state := Closed;
      failures := 0;
    }

    method RecordFailure(now: int)
      modifies this
      ensures View() == Failed(old(View()), now, config)
    {
      failures := failures + 1;
      lastFailure := now;
      if failures >= config.threshold {
        state := Open;
      }
    }
  }

  /** The breakers of all providers, created on first use. */
  class ProviderCircuitBreakers {
    const config: Config
    var breakers: map<Name, CircuitBreaker>

    /** Every provider has its own breaker object. */
    ghost predicate Valid()
      reads this
    {
      && (forall n | n in breakers :: breakers[n].config == config)
      && (forall m, n | m in breakers && n in breakers && m != n :: breakers[m] != breakers[n])
    }

    ghost function Objects(): set<object>
      reads this
    {
      set n | n in breakers :: breakers[n]
    }

    ghost function View(): map<Name, Breaker>
      reads this, Objects()
    {
      map n | n in breakers :: breakers[n].View()
    }

    constructor (config: Config)
      ensures Valid() && breakers == map[] && this.config == config
    {
      this.config := config;
      breakers := map[];
    }

    /** The breaker of `name`: always the same object for the same name. */
    method Get(name: Name) returns (cb: CircuitBreaker)
      requires Valid()
      modifies this
      ensures Valid() && name in breakers && cb == breakers[name] && cb.config == config
      ensures View() == if name in old(View()) then old(View()) else old(View())[name := NewBreaker()]
      ensures name in old(breakers) ==> breakers == old(breakers)
      ensures name !in old(breakers) ==> fresh(cb) && cb.View() == NewBreaker() && breakers == old(breakers)[name := cb]
    {
      if name in breakers {
        return breakers[name];
      }
      cb := new CircuitBreaker(config);
      breakers := breakers[name := cb];
    }
  }
}
