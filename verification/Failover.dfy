/** Ordered failover of one transfer over the providers, each behind its circuit breaker. */
module Failover {
  import opened Common
  import opened CircuitBreakers

  type TransferResult = string

  datatype Reply = Refuses | Accepts(result: TransferResult)

  /** One provider in the order tried: what it answers if contacted, and the clock when its
      breaker is asked and when it answers. */
  datatype Visit = Visit(name: Name, reply: Reply, asked: int, answered: int)

  datatype Outcome = Blocked | Errored | Answered(result: TransferResult)

  type Registry = map<Name, Breaker>

  function BreakerOf(reg: Registry, n: Name): Breaker { if n in reg then reg[n] else NewBreaker() }

  /** The breaker after the provider's answer, and what the attempt came to. */
  function Told(b: Breaker, v: Visit, cfg: Config): Breaker
  {
    if v.reply.Refuses? then Failed(b, v.answered, cfg) else Succeeded(b)
  }

  function Reported(v: Visit): Outcome { if v.reply.Refuses? then Errored else Answered(v.reply.result) }

  /** attemptTransfer: ask the breaker, contact the provider, report back to the breaker. */
  function Attempt(reg: Registry, v: Visit, cfg: Config): (Registry, Outcome)
  {
    var (b, allowed) := Asked(BreakerOf(reg, v.name), v.asked, cfg);
    if !allowed then (reg[v.name := b], Blocked) else (reg[v.name := Told(b, v, cfg)], Reported(v))
  }

  /** tryTransfer: the outcomes of the attempts made, stopping at the first answer. */
  function Try(reg: Registry, visits: seq<Visit>, cfg: Config): (Registry, seq<Outcome>)
    decreases |visits|
  {
    if visits == [] then (reg, [])
    else
      var (reg', o) := Attempt(reg, visits[0], cfg);
      if o.Answered? then (reg', [o])
      else
        var (reg'', os) := Try(reg', visits[1..], cfg);
        (reg'', [o] + os)
  }

  function ResultOf(os: seq<Outcome>): Option<TransferResult>
  {
    if os != [] && os[|os| - 1].Answered? then Some(os[|os| - 1].result) else None
  }

  /** Whether the breaker of `v`, as it stands in `reg`, lets the request through. */
  predicate LetsThrough(reg: Registry, v: Visit, cfg: Config)
  {
    Asked(BreakerOf(reg, v.name), v.asked, cfg).1
  }

  /** The breakers as attempt `j` finds them, when no earlier attempt answered. */
  function Turn(reg: Registry, visits: seq<Visit>, j: nat, cfg: Config): Registry
    requires j <= |visits|
    decreases j
  {
    if j == 0 then reg else Turn(Attempt(reg, visits[0], cfg).0, visits[1..], j - 1, cfg)
  }

  /** Ordered failover, `allowed` saying which providers were let through when their turn came: exactly
      those are contacted, in order, up to the first that accepts; its answer is the result, and there
      is none only if every provider was blocked or refused. */
  predicate FailsOver(visits: seq<Visit>, allowed: seq<bool>, os: seq<Outcome>)
  {
    && |allowed| == |os| <= |visits|
    && (forall j | 0 <= j < |os| :: os[j].Blocked? <==> !allowed[j])
    && (forall j | 0 <= j < |os| - 1 :: !(allowed[j] && visits[j].reply.Accepts?))
    && (if ResultOf(os).Some?
        then os != [] && allowed[|os| - 1] && visits[|os| - 1].reply == Accepts(ResultOf(os).value)
        else |os| == |visits| && forall j | 0 <= j < |visits| :: !(allowed[j] && visits[j].reply.Accepts?))
  }

  /** Which of the first `n` providers are let through at their turn. */
  function Opens(reg: Registry, visits: seq<Visit>, n: nat, cfg: Config): seq<bool>
    requires n <= |visits|
  {
    seq(n, j requires 0 <= j < n => LetsThrough(Turn(reg, visits, j, cfg), visits[j], cfg))
  }

  /** The result is that of the least-indexed provider that is let through at its turn and accepts,
      whatever the list of providers. */
  lemma {:induction false} LeastIndexedProviderWins(reg: Registry, visits: seq<Visit>, cfg: Config)
    ensures var os := Try(reg, visits, cfg).1;
            |os| <= |visits| && FailsOver(visits, Opens(reg, visits, |os|, cfg), os)
    decreases |visits|
  {
    if visits != [] {
      var (reg', o) := Attempt(reg, visits[0], cfg);
      var os := if o.Answered? then [] else Try(reg', visits[1..], cfg).1;
      if !o.Answered? {
        LeastIndexedProviderWins(reg', visits[1..], cfg);
        FailsOverPrepend(visits, LetsThrough(reg, visits[0], cfg), Opens(reg', visits[1..], |os|, cfg), o, os);
      }
      OpensUnfolds(reg, visits, |os|, cfg);
    }
  }

  lemma OpensUnfolds(reg: Registry, visits: seq<Visit>, n: nat, cfg: Config)
    requires n < |visits|
    ensures Opens(reg, visits, n + 1, cfg)
         == [LetsThrough(reg, visits[0], cfg)] + Opens(Attempt(reg, visits[0], cfg).0, visits[1..], n, cfg)
  {
  }

  lemma FailsOverPrepend(visits: seq<Visit>, first: bool, allowed: seq<bool>, o: Outcome, os: seq<Outcome>)
    requires visits != [] && !o.Answered? && (o.Blocked? <==> !first) && !(first && visits[0].reply.Accepts?)
    requires FailsOver(visits[1..], allowed, os)
    ensures FailsOver(visits, [first] + allowed, [o] + os)
  {
    var all, given := [o] + os, [first] + allowed;
    assert ResultOf(all) == ResultOf(os);
    forall j | 0 < j < |visits| ensures visits[1..][j - 1] == visits[j] {}
    forall j | 0 < j < |all| ensures all[j] == os[j - 1] && given[j] == allowed[j - 1] {}
  }

  /** When no earlier entry of the list names the same provider, its breaker at its turn is the one
      it had before the request. */
  lemma {:induction false} TurnFindsOwnBreaker(reg: Registry, visits: seq<Visit>, j: nat, cfg: Config)
    requires j < |visits| && forall i | 0 <= i < j :: visits[i].name != visits[j].name
    ensures LetsThrough(Turn(reg, visits, j, cfg), visits[j], cfg) <==> LetsThrough(reg, visits[j], cfg)
    decreases j
  {
    if j > 0 {
      assert visits[1..][j - 1] == visits[j];
      forall i | 0 <= i < j - 1 ensures visits[1..][i].name != visits[1..][j - 1].name {
        assert visits[1..][i] == visits[i + 1];
      }
      assert visits[0].name != visits[j].name;
      TurnFindsOwnBreaker(Attempt(reg, visits[0], cfg).0, visits[1..], j - 1, cfg);
    }
  }

  /** tryTransfer over the breaker objects. */
  class TransferProviderManager {
    const circuitBreakers: ProviderCircuitBreakers

    constructor (circuitBreakers: ProviderCircuitBreakers)
      ensures this.circuitBreakers == circuitBreakers
    {
      this.circuitBreakers := circuitBreakers;
    }

    /** Fetch the provider's breaker and ask it. */
    method AskBreaker(v: Visit) returns (cb: CircuitBreaker, allowed: bool)
      requires circuitBreakers.Valid()
      modifies circuitBreakers, circuitBreakers.Objects()
      ensures circuitBreakers.Valid() && fresh(circuitBreakers.Objects() - old(circuitBreakers.Objects()))
      ensures v.name in circuitBreakers.breakers && cb == circuitBreakers.breakers[v.name]
      ensures cb.config == circuitBreakers.config
      ensures var reg := old(circuitBreakers.View());
              var (b, answer) := Asked(BreakerOf(reg, v.name), v.asked, circuitBreakers.config);
              circuitBreakers.View() == reg[v.name := b] && cb.View() == b && allowed == answer
    {
      cb := circuitBreakers.Get(v.name);
      ghost var reg := old(circuitBreakers.View());
      assert cb.View() == BreakerOf(reg, v.name);
      allowed := cb.Allow(v.asked);
      assert circuitBreakers.View() == reg[v.name := cb.View()];
    }

    method AttemptTransfer(v: Visit) returns (o: Outcome)
      requires circuitBreakers.Valid()
      modifies circuitBreakers, circuitBreakers.Objects()
      ensures circuitBreakers.Valid() && fresh(circuitBreakers.Objects() - old(circuitBreakers.Objects()))
      ensures (circuitBreakers.View(), o) == Attempt(old(circuitBreakers.View()), v, circuitBreakers.config)
    {
      ghost var reg := circuitBreakers.View();
      var cb, allowed := AskBreaker(v);
      if !allowed {
        return Blocked;
      }
      o := Report(cb, v);
      Overwritten(reg, v.name, Asked(BreakerOf(reg, v.name), v.asked, circuitBreakers.config).0, cb.View());
    }

    /** What the provider answered, told to its breaker. */
    method Report(cb: CircuitBreaker, v: Visit) returns (o: Outcome)
      requires circuitBreakers.Valid() && v.name in circuitBreakers.breakers && cb == circuitBreakers.breakers[v.name]
      modifies cb
      ensures circuitBreakers.Valid()
      ensures cb.View() == Told(old(cb.View()), v, circuitBreakers.config)
      ensures circuitBreakers.View() == old(circuitBreakers.View())[v.name := cb.View()]
      ensures o == Reported(v)
    {
      ghost var reg := circuitBreakers.View();
      match v.reply {
        case Refuses =>
          cb.RecordFailure(v.answered);
          o := Errored;
        case Accepts(r) =>
          cb.RecordSuccess();
          o := Answered(r);
      }
      assert circuitBreakers.View() == reg[v.name := cb.View()];
    }

    /** Try the providers in order until one answers. */
    method TryTransfer(visits: seq<Visit>) returns (result: Option<TransferResult>, outcomes: seq<Outcome>)
      requires circuitBreakers.Valid()
      modifies circuitBreakers, circuitBreakers.Objects()
      ensures circuitBreakers.Valid()
      ensures (circuitBreakers.View(), outcomes) == Try(old(circuitBreakers.View()), visits, circuitBreakers.config)
      ensures result == ResultOf(outcomes)
    {
      outcomes := [];
      ghost var total := Try(circuitBreakers.View(), visits, circuitBreakers.config);
      ghost var rest := total;
      assert visits[0..] == visits && outcomes + rest.1 == total.1;
      for i := 0 to |visits|
        invariant circuitBreakers.Valid() && fresh(circuitBreakers.Objects() - old(circuitBreakers.Objects()))
        invariant ResultOf(outcomes).None?
        invariant rest == Try(circuitBreakers.View(), visits[i..], circuitBreakers.config)
        invariant rest.0 == total.0 && outcomes + rest.1 == total.1
      {
        ghost var reg := circuitBreakers.View();
        assert visits[i..][0] == visits[i] && visits[i..][1..] == visits[i + 1..];
        var o := AttemptTransfer(visits[i]);
        rest := TryUnfolds(reg, circuitBreakers.View(), o, visits[i..], circuitBreakers.config, outcomes, total.1);
        outcomes := outcomes + [o];
        if o.Answered? {
          return Some(o.result), outcomes;
        }
      }
      assert visits[|visits|..] == [] && outcomes + [] == outcomes;
      result := None;
    }
  }

  lemma Overwritten(reg: Registry, n: Name, first: Breaker, second: Breaker)
    ensures reg[n := first][n := second] == reg[n := second]
  {
  }

  /** One attempt moves the head of what is still to come into what has been done. */
  lemma TryUnfolds(reg: Registry, reg': Registry, o: Outcome, visits: seq<Visit>, cfg: Config,
                   done: seq<Outcome>, total: seq<Outcome>)
    returns (rest: (Registry, seq<Outcome>))
    requires visits != [] && (reg', o) == Attempt(reg, visits[0], cfg)
    requires done + Try(reg, visits, cfg).1 == total
    ensures rest.0 == Try(reg, visits, cfg).0 && (done + [o]) + rest.1 == total
    ensures if o.Answered? then rest == (reg', []) && done + [o] == total else rest == Try(reg', visits[1..], cfg)
  {
    rest := if o.Answered? then (reg', []) else Try(reg', visits[1..], cfg);
    assert Try(reg, visits, cfg).1 == [o] + rest.1;
    assert (done + [o]) + rest.1 == done + ([o] + rest.1);
    assert done + [o] + [] == done + [o];
  }
}
