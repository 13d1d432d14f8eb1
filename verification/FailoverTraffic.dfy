/** Failover of many requests at once: asking a breaker and reporting to it are steps of a request,
    interleaved with those of other requests and with any other use of the breakers. */
module FailoverTraffic {
  import opened Common
  import opened CircuitBreakers
  import opened Failover

  // ---- requests on their way ----

  /** The outcomes so far, and whether the provider whose turn it is has been let through and has yet
      to report. */
  datatype Request = Request(visits: seq<Visit>, outcomes: seq<Outcome>, contacted: bool)

  predicate Finished(q: Request) { |q.outcomes| >= |q.visits| || ResultOf(q.outcomes).Some? }

  /** The provider whose turn it is. */
  function Current(q: Request): Visit
    requires !Finished(q)
  {
    q.visits[|q.outcomes|]
  }

  /** What the next step of the request does to the breaker of that provider. */
  function EventOf(q: Request): Event
    requires !Finished(q)
  {
    var v := Current(q);
    if !q.contacted then Ask(v.asked) else if v.reply.Refuses? then Failure(v.answered) else Success
  }

  /** The request after that step, `allowed` being the answer when it asks. */
  function Advance(q: Request, allowed: bool): Request
    requires !Finished(q)
  {
    if q.contacted then Request(q.visits, q.outcomes + [Reported(Current(q))], false)
    else if allowed then q.(contacted := true)
    else q.(outcomes := q.outcomes + [Blocked])
  }

  /** A request arrives, one takes its next step, or a locked method is called elsewhere. */
  datatype Move = Arrives(visits: seq<Visit>) | Goes(index: nat) | Elsewhere(name: Name, event: Event)

  predicate CanGo(requests: seq<Request>, i: nat) { i < |requests| && !Finished(requests[i]) }

  // ---- the breakers as they are ----

  datatype Live = Live(breakers: Registry, requests: seq<Request>)

  function LiveMove(t: Live, m: Move, cfg: Config): Live
  {
    match m
    case Arrives(visits) => t.(requests := t.requests + [Request(visits, [], false)])
    case Goes(i) =>
      if !CanGo(t.requests, i) then t
      else
        var q := t.requests[i];
        var b := BreakerOf(t.breakers, Current(q).name);
        Live(t.breakers[Current(q).name := After(b, EventOf(q), cfg)],
             t.requests[i := Advance(q, Asked(b, Current(q).asked, cfg).1)])
    case Elsewhere(n, e) => t.(breakers := t.breakers[n := After(BreakerOf(t.breakers, n), e, cfg)])
  }

  function LiveRun(t: Live, moves: seq<Move>, cfg: Config): Live
  {
    if moves == [] then t else LiveMove(LiveRun(t, moves[..|moves| - 1], cfg), moves[|moves| - 1], cfg)
  }

  // ---- the breakers as the logs of what happened to them ----

  type Logs = map<Name, seq<Event>>

  function LogOf(logs: Logs, n: Name): seq<Event> { if n in logs then logs[n] else [] }

  datatype Logged = Logged(logs: Logs, requests: seq<Request>)

  predicate RuleAllows(logs: Logs, v: Visit, cfg: Config) { Rule(LogOf(logs, v.name), v.asked, cfg) }

  function Noted(logs: Logs, n: Name, e: Event): Logs { logs[n := LogOf(logs, n) + [e]] }

  /** The same move decided by the stateless rule on the provider's log. */
  function LoggedMove(t: Logged, m: Move, cfg: Config): Logged
  {
    match m
    case Arrives(visits) => t.(requests := t.requests + [Request(visits, [], false)])
    case Goes(i) =>
      if !CanGo(t.requests, i) then t
      else
        var q := t.requests[i];
        Logged(Noted(t.logs, Current(q).name, EventOf(q)), t.requests[i := Advance(q, RuleAllows(t.logs, Current(q), cfg))])
    case Elsewhere(n, e) => t.(logs := Noted(t.logs, n, e))
  }

  function LoggedRun(t: Logged, moves: seq<Move>, cfg: Config): Logged
  {
    if moves == [] then t else LoggedMove(LoggedRun(t, moves[..|moves| - 1], cfg), moves[|moves| - 1], cfg)
  }

  ghost predicate AllTimed(logs: Logs) { forall n | n in logs :: Timed(logs[n]) }

  /** The registry is what replaying the logs gives. */
  ghost predicate Represents(reg: Registry, logs: Logs, cfg: Config)
  {
    reg.Keys == logs.Keys && forall n | n in logs :: reg[n] == Replay(logs[n], cfg)
  }

  // ---- the breakers follow the rule ----

  lemma NotedRepresents(reg: Registry, logs: Logs, n: Name, e: Event, cfg: Config)
    requires Represents(reg, logs, cfg)
    ensures Represents(reg[n := After(BreakerOf(reg, n), e, cfg)], Noted(logs, n, e), cfg)
  {
    ReplayAppend(LogOf(logs, n), e, cfg);
  }

  /** What the breaker answers is what the rule says. */
  lemma AskFollowsRule(reg: Registry, logs: Logs, v: Visit, cfg: Config)
    requires cfg.threshold >= 1 && Represents(reg, logs, cfg) && Timed(LogOf(logs, v.name) + [Ask(v.asked)])
    ensures LetsThrough(reg, v, cfg) <==> RuleAllows(logs, v, cfg)
  {
    assert BreakerOf(reg, v.name) == Replay(LogOf(logs, v.name), cfg);
    BreakerRefinesRule(LogOf(logs, v.name), v.asked, cfg);
  }

  lemma NotedWasTimed(logs: Logs, n: Name, e: Event)
    requires AllTimed(Noted(logs, n, e))
    ensures AllTimed(logs) && Timed(LogOf(logs, n) + [e])
  {
    var after := Noted(logs, n, e);
    assert n in after && after[n] == LogOf(logs, n) + [e];
    forall m | m in logs ensures Timed(logs[m]) {
      assert Timed(after[m]);
      if m == n {
        TimedPrefix(after[m]);
        assert after[m][..|after[m]| - 1] == logs[m];
      }
    }
  }

  lemma MoveFollowsRule(t: Live, u: Logged, m: Move, cfg: Config)
    requires cfg.threshold >= 1 && t.requests == u.requests && Represents(t.breakers, u.logs, cfg)
    requires AllTimed(LoggedMove(u, m, cfg).logs)
    ensures AllTimed(u.logs)
    ensures LiveMove(t, m, cfg).requests == LoggedMove(u, m, cfg).requests
    ensures Represents(LiveMove(t, m, cfg).breakers, LoggedMove(u, m, cfg).logs, cfg)
  {
    match m
    case Arrives(_) =>
    case Goes(i) =>
      if CanGo(t.requests, i) {
        var q := t.requests[i];
        NotedWasTimed(u.logs, Current(q).name, EventOf(q));
        NotedRepresents(t.breakers, u.logs, Current(q).name, EventOf(q), cfg);
        if !q.contacted {
          AskFollowsRule(t.breakers, u.logs, Current(q), cfg);
        }
      }
    case Elsewhere(n, e) =>
      NotedWasTimed(u.logs, n, e);
      NotedRepresents(t.breakers, u.logs, n, e, cfg);
  }

  lemma {:induction false} StayTimed(u: Logged, moves: seq<Move>, cfg: Config)
    requires moves != [] && AllTimed(LoggedRun(u, moves, cfg).logs)
    ensures AllTimed(LoggedRun(u, moves[..|moves| - 1], cfg).logs)
  {
    var before, m := LoggedRun(u, moves[..|moves| - 1], cfg), moves[|moves| - 1];
    if m.Goes? && CanGo(before.requests, m.index) {
      var q := before.requests[m.index];
      NotedWasTimed(before.logs, Current(q).name, EventOf(q));
    } else if m.Elsewhere? {
      NotedWasTimed(before.logs, m.name, m.event);
    }
  }

  /** Over every interleaving of the steps of any number of requests, among any other use of the
      breakers, every request goes exactly as the stateless rule on the logs says, and the breakers are
      what the logs replay to. */
  lemma {:induction false} TrafficFollowsRule(t: Live, u: Logged, moves: seq<Move>, cfg: Config)
    requires cfg.threshold >= 1 && t.requests == u.requests && Represents(t.breakers, u.logs, cfg)
    requires AllTimed(LoggedRun(u, moves, cfg).logs)
    ensures LiveRun(t, moves, cfg).requests == LoggedRun(u, moves, cfg).requests
    ensures Represents(LiveRun(t, moves, cfg).breakers, LoggedRun(u, moves, cfg).logs, cfg)
  {
    if moves != [] {
      var rest := moves[..|moves| - 1];
      StayTimed(u, moves, cfg);
      TrafficFollowsRule(t, u, rest, cfg);
      MoveFollowsRule(LiveRun(t, rest, cfg), LoggedRun(u, rest, cfg), moves[|moves| - 1], cfg);
    }
  }

  // ---- every request fails over ----

  const IDLE := Live(map[], [])
  const NOTHING_LOGGED := Logged(map[], [])

  /** What the rule said each time request `i` asked a breaker, on the log as it was then. */
  function Decisions(moves: seq<Move>, i: nat, cfg: Config): seq<bool>
  {
    if moves == [] then []
    else
      var n := |moves| - 1;
      var before := LoggedRun(NOTHING_LOGGED, moves[..n], cfg);
      Decisions(moves[..n], i, cfg)
      + if moves[n] == Goes(i) && CanGo(before.requests, i) && !before.requests[i].contacted
        then [RuleAllows(before.logs, Current(before.requests[i]), cfg)] else []
  }

  /** A request so far, told from the decisions it was given. */
  predicate OnTrack(q: Request, allowed: seq<bool>)
  {
    && |q.outcomes| <= |q.visits| && |allowed| == |q.outcomes| + (if q.contacted then 1 else 0)
    && (q.contacted ==> !Finished(q) && allowed[|q.outcomes|])
    && (forall j | 0 <= j < |q.outcomes| :: q.outcomes[j] == if allowed[j] then Reported(q.visits[j]) else Blocked)
    && (forall j | 0 <= j < |q.outcomes| - 1 :: !q.outcomes[j].Answered?)
  }

  lemma AdvanceStaysOnTrack(q: Request, allowed: seq<bool>, answer: bool)
    requires OnTrack(q, allowed) && !Finished(q)
    ensures OnTrack(Advance(q, answer), allowed + if q.contacted then [] else [answer])
  {
  }

  lemma FinishedFailsOver(q: Request, allowed: seq<bool>)
    requires OnTrack(q, allowed) && Finished(q)
    ensures FailsOver(q.visits, allowed, q.outcomes)
  {
  }

  lemma {:induction false} RequestsStayOnTrack(moves: seq<Move>, i: nat, cfg: Config)
    ensures var requests := LoggedRun(NOTHING_LOGGED, moves, cfg).requests;
            if i < |requests| then OnTrack(requests[i], Decisions(moves, i, cfg)) else Decisions(moves, i, cfg) == []
  {
    if moves != [] {
      var n := |moves| - 1;
      var before := LoggedRun(NOTHING_LOGGED, moves[..n], cfg);
      RequestsStayOnTrack(moves[..n], i, cfg);
      if moves[n] == Goes(i) && CanGo(before.requests, i) {
        var q := before.requests[i];
        AdvanceStaysOnTrack(q, Decisions(moves[..n], i, cfg), RuleAllows(before.logs, Current(q), cfg));
      } else {
        assert Decisions(moves, i, cfg) == Decisions(moves[..n], i, cfg);
      }
    }
  }

  /** Failover under every interleaving: a finished request was answered by the first provider that the
      rule allowed, on its log at the moment it was asked, and that accepts; it contacted exactly the
      allowed ones up to it, and failed only if there was none. */
  lemma InterleavedFailover(moves: seq<Move>, i: nat, cfg: Config)
    requires cfg.threshold >= 1 && AllTimed(LoggedRun(NOTHING_LOGGED, moves, cfg).logs)
    requires i < |LiveRun(IDLE, moves, cfg).requests| && Finished(LiveRun(IDLE, moves, cfg).requests[i])
    ensures var q := LiveRun(IDLE, moves, cfg).requests[i]; FailsOver(q.visits, Decisions(moves, i, cfg), q.outcomes)
  {
    TrafficFollowsRule(IDLE, NOTHING_LOGGED, moves, cfg);
    RequestsStayOnTrack(moves, i, cfg);
    FinishedFailsOver(LiveRun(IDLE, moves, cfg).requests[i], Decisions(moves, i, cfg));
  }

  /** In any state of any interleaving, a request whose next provider has as many failures since its
      last success as the threshold does not contact it while the timeout since its last failure has
      not passed. */
  lemma NotContactedWithinTimeout(moves: seq<Move>, i: nat, cfg: Config)
    requires cfg.threshold >= 1 && AllTimed(LoggedRun(NOTHING_LOGGED, moves + [Goes(i)], cfg).logs)
    requires CanGo(LiveRun(IDLE, moves, cfg).requests, i) && !LiveRun(IDLE, moves, cfg).requests[i].contacted
    requires var v := Current(LiveRun(IDLE, moves, cfg).requests[i]);
             var log := LogOf(LoggedRun(NOTHING_LOGGED, moves, cfg).logs, v.name);
             && FailuresSinceSuccess(log) >= cfg.threshold
             && (LastFailure(log).Some? ==> v.asked - LastFailure(log).value <= cfg.resetTimeout)
    ensures var q := LiveRun(IDLE, moves, cfg).requests[i];
            LiveRun(IDLE, moves + [Goes(i)], cfg).requests[i] == q.(outcomes := q.outcomes + [Blocked])
  {
    var all := moves + [Goes(i)];
    assert all[..|all| - 1] == moves;
    StayTimed(NOTHING_LOGGED, all, cfg);
    TrafficFollowsRule(IDLE, NOTHING_LOGGED, moves, cfg);
    TrafficFollowsRule(IDLE, NOTHING_LOGGED, all, cfg);
  }

  // ---- a request with nothing in between ----

  lemma {:induction false} LiveFront(t: Live, m: Move, moves: seq<Move>, cfg: Config)
    ensures LiveRun(t, [m] + moves, cfg) == LiveRun(LiveMove(t, m, cfg), moves, cfg)
  {
    var all := [m] + moves;
    if moves == [] {
      assert all[..0] == [] && all == [m];
    } else {
      assert all[..|all| - 1] == [m] + moves[..|moves| - 1];
      LiveFront(t, m, moves[..|moves| - 1], cfg);
    }
  }

  /** One attempt is one step of the request when it is blocked, and two when it is not. */
  lemma AttemptInSteps(t: Live, i: nat, more: seq<Move>, cfg: Config) returns (steps: seq<Move>, next: Live)
    requires CanGo(t.requests, i) && !t.requests[i].contacted
    ensures var q := t.requests[i];
            var (reg, o) := Attempt(t.breakers, Current(q), cfg);
            next == Live(reg, t.requests[i := q.(outcomes := q.outcomes + [o])])
    ensures LiveRun(t, steps + more, cfg) == LiveRun(next, more, cfg)
  {
    var first := LiveMove(t, Goes(i), cfg);
    LiveFront(t, Goes(i), more, cfg);
    if first.requests[i].contacted {
      steps, next := [Goes(i)] + [Goes(i)], LiveMove(first, Goes(i), cfg);
      assert steps + more == [Goes(i)] + ([Goes(i)] + more);
      LiveFront(t, Goes(i), [Goes(i)] + more, cfg);
      LiveFront(first, Goes(i), more, cfg);
    } else {
      steps, next := [Goes(i)], first;
    }
  }

  /** The steps of a request taken one after the other are what trying its providers in one go does. */
  lemma {:induction false} AloneIsTry(t: Live, i: nat, cfg: Config) returns (moves: seq<Move>)
    requires i < |t.requests| && !t.requests[i].contacted && ResultOf(t.requests[i].outcomes).None?
    requires |t.requests[i].outcomes| <= |t.requests[i].visits|
    ensures var q := t.requests[i];
            var (reg, os) := Try(t.breakers, q.visits[|q.outcomes|..], cfg);
            LiveRun(t, moves, cfg) == Live(reg, t.requests[i := q.(outcomes := q.outcomes + os)])
    decreases |t.requests[i].visits| - |t.requests[i].outcomes|
  {
    var q := t.requests[i];
    moves := [];
    if |q.outcomes| == |q.visits| {
      assert q.outcomes + [] == q.outcomes;
    } else {
      var rest := q.visits[|q.outcomes|..];
      var (reg, o) := Attempt(t.breakers, rest[0], cfg);
      var next := Live(reg, t.requests[i := q.(outcomes := q.outcomes + [o])]);
      if !o.Answered? {
        moves := AloneIsTry(next, i, cfg);
        assert rest[1..] == q.visits[|q.outcomes| + 1..];
        AppendMore(q.outcomes, o, Try(reg, rest[1..], cfg).1);
      }
      var steps, _ := AttemptInSteps(t, i, moves, cfg);
      moves := steps + moves;
    }
  }

  lemma AppendMore(os: seq<Outcome>, o: Outcome, more: seq<Outcome>)
    ensures (os + [o]) + more == os + ([o] + more)
  {
  }

  /** After any traffic, with other requests on their way or not, a request over distinct providers that
      has the breakers to itself fails over as the rule on the logs before it says. */
  lemma FailoverAfterAnyHistory(moves: seq<Move>, visits: seq<Visit>, cfg: Config)
    requires cfg.threshold >= 1 && AllTimed(LoggedRun(NOTHING_LOGGED, moves, cfg).logs)
    requires forall i, j | 0 <= i < j < |visits| :: visits[i].name != visits[j].name
    requires forall v | v in visits :: Timed(LogOf(LoggedRun(NOTHING_LOGGED, moves, cfg).logs, v.name) + [Ask(v.asked)])
    ensures var os := Try(LiveRun(IDLE, moves, cfg).breakers, visits, cfg).1;
            |os| <= |visits| && FailsOver(visits, RulesSay(LoggedRun(NOTHING_LOGGED, moves, cfg).logs, visits, |os|, cfg), os)
  {
    var reg, logs := LiveRun(IDLE, moves, cfg).breakers, LoggedRun(NOTHING_LOGGED, moves, cfg).logs;
    var n := |Try(reg, visits, cfg).1|;
    TrafficFollowsRule(IDLE, NOTHING_LOGGED, moves, cfg);
    LeastIndexedProviderWins(reg, visits, cfg);
    forall j | 0 <= j < n ensures LetsThrough(Turn(reg, visits, j, cfg), visits[j], cfg) <==> RuleAllows(logs, visits[j], cfg) {
      TurnFindsOwnBreaker(reg, visits, j, cfg);
      assert visits[j] in visits;
      AskFollowsRule(reg, logs, visits[j], cfg);
    }
    assert Opens(reg, visits, n, cfg) == RulesSay(logs, visits, n, cfg);
  }

  /** What the rule says of the first `n` providers on the given logs. */
  function RulesSay(logs: Logs, visits: seq<Visit>, n: nat, cfg: Config): seq<bool>
    requires n <= |visits|
  {
    seq(n, j requires 0 <= j < n => RuleAllows(logs, visits[j], cfg))
  }
}
