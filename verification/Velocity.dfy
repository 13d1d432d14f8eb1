/** The transfer velocity limiter: per-business timestamp slices pruned in place, which decide
    exactly as a check on the whole admitted history would. */
module Velocity {
  import opened Common

  /** Times are integers in one unit, here nanoseconds. */
  const HOUR := 3_600_000_000_000
  const DAY := 24 * HOUR

  datatype Config = Config(maxPerHour: int, maxPerDay: int)

  datatype Decision = Admitted | HourlyLimit | DailyLimit

  /** The entries later than the cutoff, in order. */
  function After(ts: seq<int>, cutoff: int): seq<int>
  {
    if ts == [] then []
    else
      var front := After(ts[..|ts| - 1], cutoff);
      if ts[|ts| - 1] > cutoff then front + [ts[|ts| - 1]] else front
  }

  lemma AfterAppend(ts: seq<int>, t: int, cutoff: int)
    ensures After(ts + [t], cutoff) == if t > cutoff then After(ts, cutoff) + [t] else After(ts, cutoff)
  {
    assert (ts + [t])[..|ts|] == ts;
  }

  lemma {:induction false} AfterIsShorter(ts: seq<int>, cutoff: int)
    ensures |After(ts, cutoff)| <= |ts|
  {
    if ts != [] {
      AfterIsShorter(ts[..|ts| - 1], cutoff);
    }
  }

  /** Pruning twice is pruning once at the later cutoff. */
  lemma {:induction false} AfterAfter(ts: seq<int>, early: int, late: int)
    requires early <= late
    ensures After(After(ts, early), late) == After(ts, late)
  {
    if ts != [] {
      var front, t := ts[..|ts| - 1], ts[|ts| - 1];
      AfterAfter(front, early, late);
      AfterAppend(After(front, early), t, late);
    }
  }

  // ---- the counter of one business, as values ----

  datatype Counter = Counter(hourly: seq<int>, daily: seq<int>)

  function Cleaned(c: Counter, now: int): Counter
  {
    Counter(After(c.hourly, now - HOUR), After(c.daily, now - DAY))
  }

  function Decide(inHour: nat, inDay: nat, cfg: Config): Decision
  {
    if cfg.maxPerHour > 0 && inHour >= cfg.maxPerHour then HourlyLimit
    else if cfg.maxPerDay > 0 && inDay >= cfg.maxPerDay then DailyLimit
    else Admitted
  }

  /** One request: prune, check both limits, record the transfer if admitted. */
  function Request(c: Counter, now: int, cfg: Config): (Counter, Decision)
  {
    var p := Cleaned(c, now);
    var d := Decide(|p.hourly|, |p.daily|, cfg);
    (if d.Admitted? then Counter(p.hourly + [now], p.daily + [now]) else p, d)
  }

  /** The rule with nothing forgotten: what was admitted in the last hour and the last day. */
  function FullHistoryRule(admitted: seq<int>, now: int, cfg: Config): Decision
  {
    Decide(|After(admitted, now - HOUR)|, |After(admitted, now - DAY)|, cfg)
  }

  /** A request, or the background sweep. */
  datatype Event = Ask(now: int) | Sweep(now: int)

  function RunPruned(c: Counter, events: seq<Event>, cfg: Config): (Counter, seq<Decision>)
  {
    if events == [] then (c, [])
    else
      var (before, decisions) := RunPruned(c, events[..|events| - 1], cfg);
      match events[|events| - 1]
      case Sweep(now) => (Cleaned(before, now), decisions)
      case Ask(now) =>
        var (after, d) := Request(before, now, cfg);
        (after, decisions + [d])
  }

  /** The same events against the unbounded history of admitted transfers. */
  function RunFull(events: seq<Event>, cfg: Config): (seq<int>, seq<Decision>)
  {
    if events == [] then ([], [])
    else
      var (admitted, decisions) := RunFull(events[..|events| - 1], cfg);
      match events[|events| - 1]
      case Sweep(now) => (admitted, decisions)
      case Ask(now) =>
        var d := FullHistoryRule(admitted, now, cfg);
        (if d.Admitted? then admitted + [now] else admitted, decisions + [d])
  }

  predicate NonDecreasing(events: seq<Event>)
  {
    forall i, j | 0 <= i < j < |events| :: events[i].now <= events[j].now
  }

  /** What the slices should hold once everything up to `now` has been seen. */
  function Recent(admitted: seq<int>, now: int): Counter
  {
    Counter(After(admitted, now - HOUR), After(admitted, now - DAY))
  }

  lemma CleaningIsRecent(admitted: seq<int>, last: int, now: int)
    requires last <= now
    ensures Cleaned(Recent(admitted, last), now) == Recent(admitted, now)
  {
    AfterAfter(admitted, last - HOUR, now - HOUR);
    AfterAfter(admitted, last - DAY, now - DAY);
  }

  /** One request on slices that are up to date decides as the full history does. */
  lemma RequestFollowsRule(c: Counter, admitted: seq<int>, now: int, cfg: Config)
    requires Cleaned(c, now) == Recent(admitted, now)
    ensures Request(c, now, cfg).1 == FullHistoryRule(admitted, now, cfg)
    ensures Request(c, now, cfg).0
         == Recent(if FullHistoryRule(admitted, now, cfg).Admitted? then admitted + [now] else admitted, now)
  {
    AfterAppend(admitted, now, now - HOUR);
    AfterAppend(admitted, now, now - DAY);
  }

  /** Refinement: under a clock that does not run backwards, the pruned slices are the admitted
      history cut to the last hour and day, and every decision is that of the full history. */
  lemma {:induction false} PrunedRefinesFullHistory(events: seq<Event>, cfg: Config)
    requires NonDecreasing(events)
    ensures RunPruned(Counter([], []), events, cfg).1 == RunFull(events, cfg).1
    ensures events != [] ==>
              RunPruned(Counter([], []), events, cfg).0 == Recent(RunFull(events, cfg).0, events[|events| - 1].now)
  {
    if events != [] {
      var front, e := events[..|events| - 1], events[|events| - 1];
      PrunedRefinesFullHistory(front, cfg);
      var c, admitted := RunPruned(Counter([], []), front, cfg).0, RunFull(front, cfg).0;
      if front != [] {
        CleaningIsRecent(admitted, front[|front| - 1].now, e.now);
      }
      assert Cleaned(c, e.now) == Recent(admitted, e.now);
      RequestFollowsRule(c, admitted, e.now, cfg);
    }
  }

  // ---- clocks out of lock order ----

  /** The handler reads the clock before it takes the counter's lock, so events may be out of clock
      order. Event `n` then misses the request of event `k` if an event `j` in between has pruned it
      although `n` would still count it. */
  predicate Forgets(events: seq<Event>, k: nat, j: nat, n: nat, window: int)
    requires k < j < n < |events|
  {
    events[k].Ask? && events[n].Ask? && events[n].now - window < events[k].now <= events[j].now - window
  }

  predicate Remembers(events: seq<Event>, k: nat, j: nat, n: nat)
    requires k < j < n < |events|
  {
    !Forgets(events, k, j, n, HOUR) && !Forgets(events, k, j, n, DAY)
  }

  /** No request finds pruned what it would still count, as far as the clocks of the events tell. */
  predicate Tolerable(events: seq<Event>)
  {
    forall k: nat, j: nat, n: nat | k < j < n < |events| :: Remembers(events, k, j, n)
  }

  lemma ClockOrderIsTolerable(events: seq<Event>)
    requires NonDecreasing(events)
    ensures Tolerable(events)
  {
    forall k: nat, j: nat, n: nat | k < j < n < |events| ensures Remembers(events, k, j, n) {
      assert events[j].now <= events[n].now;
    }
  }

  /** Leaving out the event before the last keeps a run tolerable. */
  lemma TolerableWithout(front: seq<Event>, e: Event, last: Event)
    requires Tolerable(front + [e] + [last])
    ensures Tolerable(front + [last]) && Tolerable(front + [e])
  {
    var all := front + [e] + [last];
    forall k: nat, j: nat, n: nat | k < j < n < |front + [last]| ensures Remembers(front + [last], k, j, n) {
      assert Remembers(all, k, j, if n < |front| then n else n + 1);
    }
    forall k: nat, j: nat, n: nat | k < j < n < |front + [e]| ensures Remembers(front + [e], k, j, n) {
      assert Remembers(all, k, j, n);
    }
  }

  lemma {:induction false} AfterSubset(ts: seq<int>, cutoff: int)
    ensures forall t :: t in After(ts, cutoff) <==> t in ts && t > cutoff
  {
    if ts != [] {
      AfterSubset(ts[..|ts| - 1], cutoff);
      assert ts == ts[..|ts| - 1] + [ts[|ts| - 1]];
    }
  }

  /** Pruning at a cutoff changes nothing above `floor` unless an entry lies in between. */
  lemma {:induction false} PruningKeeps(ts: seq<int>, cutoff: int, floor: int)
    requires forall t | t in ts :: !(floor < t <= cutoff)
    ensures After(After(ts, cutoff), floor) == After(ts, floor)
  {
    if ts != [] {
      var front, t := ts[..|ts| - 1], ts[|ts| - 1];
      assert t in ts && forall x | x in front :: x in ts;
      PruningKeeps(front, cutoff, floor);
      AfterAppend(After(front, cutoff), t, floor);
    }
  }

  function SliceOf(c: Counter, window: int): seq<int> { if window == HOUR then c.hourly else c.daily }

  predicate IsWindow(window: int) { window == HOUR || window == DAY }

  predicate AskedAt(events: seq<Event>, t: int) { exists k :: 0 <= k < |events| && events[k] == Ask(t) }

  lemma CleaningAddsNothing(c: Counter, now: int, window: int)
    requires IsWindow(window)
    ensures forall t | t in SliceOf(Cleaned(c, now), window) :: t in SliceOf(c, window)
  {
    AfterSubset(SliceOf(c, window), now - window);
  }

  /** Whatever a slice holds was asked for. */
  lemma {:induction false} SlicesHoldAsks(events: seq<Event>, cfg: Config, window: int, t: int)
    requires IsWindow(window) && t in SliceOf(RunPruned(Counter([], []), events, cfg).0, window)
    ensures AskedAt(events, t)
  {
    if events != [] {
      var front, e := events[..|events| - 1], events[|events| - 1];
      var c := RunPruned(Counter([], []), front, cfg).0;
      CleaningAddsNothing(c, e.now, window);
      if t in SliceOf(c, window) {
        SlicesHoldAsks(front, cfg, window, t);
        var k :| 0 <= k < |front| && front[k] == Ask(t);
        assert events[k] == Ask(t);
      } else {
        assert events[|events| - 1] == Ask(t);
      }
    }
  }

  lemma EarlierAskIsRemembered(front: seq<Event>, e: Event, now: int, k: nat, window: int)
    requires IsWindow(window) && Tolerable(front + [e] + [Ask(now)]) && k < |front| && front[k].Ask?
    ensures !(now - window < front[k].now <= e.now - window)
  {
    var all := front + [e] + [Ask(now)];
    assert Remembers(all, k, |front|, |front| + 1);
    assert all[k] == front[k] && all[|front|] == e && all[|front| + 1] == Ask(now);
  }

  /** Pruning the counter by an event takes nothing that a later request at `now` would count. */
  predicate Harmless(c: Counter, pruned: int, now: int)
  {
    && (forall t | t in c.hourly :: !(now - HOUR < t <= pruned - HOUR))
    && (forall t | t in c.daily :: !(now - DAY < t <= pruned - DAY))
  }

  lemma PruningIsHarmless(front: seq<Event>, e: Event, now: int, cfg: Config)
    requires Tolerable(front + [e] + [Ask(now)])
    ensures Harmless(RunPruned(Counter([], []), front, cfg).0, e.now, now)
  {
    var c := RunPruned(Counter([], []), front, cfg).0;
    forall t | t in c.hourly ensures !(now - HOUR < t <= e.now - HOUR) {
      SliceEntryIsRemembered(front, e, now, cfg, HOUR, t);
    }
    forall t | t in c.daily ensures !(now - DAY < t <= e.now - DAY) {
      SliceEntryIsRemembered(front, e, now, cfg, DAY, t);
    }
  }

  lemma SliceEntryIsRemembered(front: seq<Event>, e: Event, now: int, cfg: Config, window: int, t: int)
    requires IsWindow(window) && Tolerable(front + [e] + [Ask(now)])
    requires t in SliceOf(RunPruned(Counter([], []), front, cfg).0, window)
    ensures !(now - window < t <= e.now - window)
  {
    SlicesHoldAsks(front, cfg, window, t);
    var k :| 0 <= k < |front| && front[k] == Ask(t);
    EarlierAskIsRemembered(front, e, now, k, window);
  }

  lemma CleanedTwice(c: Counter, pruned: int, now: int)
    requires Harmless(c, pruned, now)
    ensures Cleaned(Cleaned(c, pruned), now) == Cleaned(c, now)
  {
    PruningKeeps(c.hourly, pruned - HOUR, now - HOUR);
    PruningKeeps(c.daily, pruned - DAY, now - DAY);
  }

  lemma RecordedAlike(c: Counter, admitted: seq<int>, t: int, now: int)
    requires Cleaned(c, now) == Recent(admitted, now)
    ensures Cleaned(Counter(c.hourly + [t], c.daily + [t]), now) == Recent(admitted + [t], now)
  {
    AfterAppend(c.hourly, t, now - HOUR);
    AfterAppend(c.daily, t, now - DAY);
    AfterAppend(admitted, t, now - HOUR);
    AfterAppend(admitted, t, now - DAY);
  }

  /** One request keeps the counts of a later one right. */
  lemma RequestKeepsCounts(c: Counter, admitted: seq<int>, asked: int, now: int, cfg: Config)
    requires Cleaned(c, now) == Recent(admitted, now) && Cleaned(c, asked) == Recent(admitted, asked)
    requires Harmless(c, asked, now)
    ensures var (next, d) := Request(c, asked, cfg);
            && d == FullHistoryRule(admitted, asked, cfg)
            && Cleaned(next, now) == Recent(if d.Admitted? then admitted + [asked] else admitted, now)
  {
    CleanedTwice(c, asked, now);
    RecordedAlike(Cleaned(c, asked), admitted, asked, now);
  }

  /** In a tolerable run the next request counts what the full history counts, and everything up to
      it was decided as the full history decides. */
  lemma {:induction false} TolerableSlices(events: seq<Event>, now: int, cfg: Config)
    requires Tolerable(events + [Ask(now)])
    ensures Cleaned(RunPruned(Counter([], []), events, cfg).0, now) == Recent(RunFull(events, cfg).0, now)
    ensures RunPruned(Counter([], []), events, cfg).1 == RunFull(events, cfg).1
    decreases |events|
  {
    if events != [] {
      var front, e := events[..|events| - 1], events[|events| - 1];
      assert events == front + [e];
      TolerableWithout(front, e, Ask(now));
      TolerableSlices(front, now, cfg);
      PruningIsHarmless(front, e, now, cfg);
      var c, admitted := RunPruned(Counter([], []), front, cfg).0, RunFull(front, cfg).0;
      if e.Ask? {
        TolerableSlices(front, e.now, cfg);
        RequestKeepsCounts(c, admitted, e.now, now, cfg);
      } else {
        CleanedTwice(c, e.now, now);
      }
    }
  }

  /** Skew that forgets nothing changes no decision. */
  lemma TolerableRunsDecideAlike(events: seq<Event>, cfg: Config)
    requires Tolerable(events)
    ensures RunPruned(Counter([], []), events, cfg).1 == RunFull(events, cfg).1
    decreases |events|
  {
    if events != [] {
      var front, e := events[..|events| - 1], events[|events| - 1];
      assert events == front + [e];
      if e.Ask? {
        TolerableSlices(front, e.now, cfg);
        RequestFollowsRule(RunPruned(Counter([], []), front, cfg).0, RunFull(front, cfg).0, e.now, cfg);
      } else {
        forall k: nat, j: nat, n: nat | k < j < n < |front| ensures Remembers(front, k, j, n) {
          assert Remembers(events, k, j, n);
        }
        TolerableRunsDecideAlike(front, cfg);
      }
    }
  }

  /** The times the limiter as written lets through. */
  function LetThrough(events: seq<Event>, cfg: Config): seq<int>
  {
    if events == [] then []
    else
      var front, e := events[..|events| - 1], events[|events| - 1];
      var c := RunPruned(Counter([], []), front, cfg).0;
      LetThrough(front, cfg) + if e.Ask? && Request(c, e.now, cfg).1.Admitted? then [e.now] else []
  }

  lemma {:induction false} SameDecisionsSameTimes(events: seq<Event>, cfg: Config)
    requires RunPruned(Counter([], []), events, cfg).1 == RunFull(events, cfg).1
    ensures LetThrough(events, cfg) == RunFull(events, cfg).0
  {
    if events != [] {
      var front, e := events[..|events| - 1], events[|events| - 1];
      DecisionCounts(front, cfg);
      var p, q := RunPruned(Counter([], []), front, cfg).1, RunFull(front, cfg).1;
      if e.Ask? {
        var d := Request(RunPruned(Counter([], []), front, cfg).0, e.now, cfg).1;
        var g := FullHistoryRule(RunFull(front, cfg).0, e.now, cfg);
        assert p == (p + [d])[..|p|] == (q + [g])[..|p|] == q && d == (p + [d])[|p|] == (q + [g])[|p|] == g;
      }
      SameDecisionsSameTimes(front, cfg);
    }
  }

  lemma {:induction false} DecisionCounts(events: seq<Event>, cfg: Config)
    ensures |RunPruned(Counter([], []), events, cfg).1| == |RunFull(events, cfg).1|
  {
    if events != [] {
      DecisionCounts(events[..|events| - 1], cfg);
    }
  }

  lemma AskAppended(events: seq<Event>, now: int, cfg: Config)
    ensures var c, admitted := RunPruned(Counter([], []), events, cfg), RunFull(events, cfg);
            var d := FullHistoryRule(admitted.0, now, cfg);
            && RunPruned(Counter([], []), events + [Ask(now)], cfg)
               == (Request(c.0, now, cfg).0, c.1 + [Request(c.0, now, cfg).1])
            && RunFull(events + [Ask(now)], cfg)
               == (if d.Admitted? then admitted.0 + [now] else admitted.0, admitted.1 + [d])
  {
    assert (events + [Ask(now)])[..|events|] == events;
  }

  lemma AfterOfOne(t: int, cutoff: int)
    ensures After([t], cutoff) == if t > cutoff then [t] else []
  {
    assert [t][..0] == [];
  }

  /** Only one limit switched on, set to `m`. */
  function Only(window: int, m: int): Config { if window == HOUR then Config(m, 0) else Config(0, m) }

  function Slice(events: seq<Event>, cfg: Config, window: int): seq<int>
  {
    SliceOf(RunPruned(Counter([], []), events, cfg).0, window)
  }

  /** The times of all requests. */
  function Asked(events: seq<Event>): seq<int>
  {
    if events == [] then []
    else Asked(events[..|events| - 1]) + if events[|events| - 1].Ask? then [events[|events| - 1].now] else []
  }

  /** Every request so far was let in, by the limiter and by the full history alike. */
  predicate AllIn(events: seq<Event>, cfg: Config)
  {
    && RunFull(events, cfg).0 == Asked(events)
    && RunPruned(Counter([], []), events, cfg).1 == RunFull(events, cfg).1
    && forall d | d in RunFull(events, cfg).1 :: d.Admitted?
  }

  lemma {:induction false} AfterShrinks(ts: seq<int>, t: int, low: int, high: int)
    requires low <= high
    ensures |After(ts, high)| <= |After(ts, low)|
    ensures t in ts && low < t <= high ==> |After(ts, high)| < |After(ts, low)|
  {
    if ts != [] {
      AfterShrinks(ts[..|ts| - 1], t, low, high);
      assert ts == ts[..|ts| - 1] + [ts[|ts| - 1]];
    }
  }

  lemma AskedGrows(events: seq<Event>, e: Event)
    ensures Asked(events + [e]) == Asked(events) + if e.Ask? then [e.now] else []
  {
    assert (events + [e])[..|events|] == events;
  }

  lemma {:induction false} AskedContains(events: seq<Event>, k: nat)
    requires k < |events| && events[k].Ask?
    ensures events[k].now in Asked(events)
  {
    if k < |events| - 1 {
      AskedContains(events[..|events| - 1], k);
    }
  }

  lemma AdmittedSlice(c: Counter, now: int, cfg: Config, window: int)
    requires IsWindow(window) && Request(c, now, cfg).1.Admitted?
    ensures SliceOf(Request(c, now, cfg).0, window) == After(SliceOf(c, window), now - window) + [now]
  {
  }

  lemma SweptSlice(c: Counter, now: int, window: int)
    requires IsWindow(window)
    ensures SliceOf(Cleaned(c, now), window) == After(SliceOf(c, window), now - window)
  {
  }

  lemma SweepAppended(events: seq<Event>, now: int, cfg: Config)
    ensures var c := RunPruned(Counter([], []), events, cfg);
            && RunPruned(Counter([], []), events + [Sweep(now)], cfg) == (Cleaned(c.0, now), c.1)
            && RunFull(events + [Sweep(now)], cfg) == RunFull(events, cfg)
  {
    assert (events + [Sweep(now)])[..|events|] == events;
  }

  lemma LastsAgree(p: seq<Decision>, d: Decision, q: seq<Decision>, g: Decision)
    requires p + [d] == q + [g]
    ensures p == q && d == g
    ensures (forall x | x in q + [g] :: x.Admitted?) ==> g.Admitted? && forall x | x in q :: x.Admitted?
  {
    assert |p| == |q| && p == (p + [d])[..|p|] && q == (q + [g])[..|q|];
    assert d == (p + [d])[|p|] && g == (q + [g])[|q|] && g in q + [g];
  }

  /** What an event leaves of a slice, when it is let in if it asks. */
  lemma SliceAfter(events: seq<Event>, e: Event, cfg: Config, window: int)
    requires IsWindow(window) && AllIn(events + [e], cfg)
    ensures Slice(events + [e], cfg, window)
         == After(Slice(events, cfg, window), e.now - window) + if e.Ask? then [e.now] else []
    ensures AllIn(events, cfg)
  {
    var c, h := RunPruned(Counter([], []), events, cfg), RunFull(events, cfg);
    AskedGrows(events, e);
    match e
    case Ask(now) =>
      AskAppended(events, now, cfg);
      LastsAgree(c.1, Request(c.0, now, cfg).1, h.1, FullHistoryRule(h.0, now, cfg));
      AdmittedSlice(c.0, now, cfg, window);
      assert h.0 == (h.0 + [now])[..|h.0|] && Asked(events) == (Asked(events) + [now])[..|Asked(events)|];
    case Sweep(now) =>
      SweepAppended(events, now, cfg);
      SweptSlice(c.0, now, window);
  }

  lemma {:induction false} AfterConcat(a: seq<int>, b: seq<int>, cutoff: int)
    ensures After(a + b, cutoff) == After(a, cutoff) + After(b, cutoff)
  {
    if b == [] {
      assert a + b == a;
    } else {
      assert (a + b)[..|a + b| - 1] == a + b[..|b| - 1];
      AfterConcat(a, b[..|b| - 1], cutoff);
    }
  }

  /** What one event does to the two counts above a time. */
  lemma CountsAfterEvent(slice: seq<int>, asked: seq<int>, added: seq<int>, cutoff: int, above: int)
    requires |After(slice, Max(cutoff, above))| <= |After(asked, above)|
    ensures |After(After(slice, cutoff) + added, above)| <= |After(asked + added, above)|
    ensures |After(slice, Max(cutoff, above))| < |After(asked, above)| ==>
            |After(After(slice, cutoff) + added, above)| < |After(asked + added, above)|
  {
    AfterConcat(After(slice, cutoff), added, above);
    AfterConcat(asked, added, above);
    TwiceAfter(slice, cutoff, above);
  }

  /** While everybody is let in a slice never counts more than the history, above any time. */
  lemma {:induction false} SliceCountsAtMost(events: seq<Event>, cfg: Config, window: int, above: int)
    requires IsWindow(window) && AllIn(events, cfg)
    ensures |After(Slice(events, cfg, window), above)| <= |After(Asked(events), above)|
  {
    if events != [] {
      var front, e := events[..|events| - 1], events[|events| - 1];
      assert events == front + [e];
      SliceAfter(front, e, cfg, window);
      SliceCountsAtMost(front, cfg, window, above);
      AfterShrinks(Slice(front, cfg, window), 0, above, Max(e.now - window, above));
      CountsAfterEvent(Slice(front, cfg, window), Asked(front), if e.Ask? then [e.now] else [], e.now - window, above);
    }
  }

  /** Pruning at two cutoffs is pruning at the later one, in either order. */
  lemma {:induction false} TwiceAfter(ts: seq<int>, a: int, b: int)
    ensures After(After(ts, a), b) == After(ts, Max(a, b))
  {
    if ts != [] {
      var front, t := ts[..|ts| - 1], ts[|ts| - 1];
      TwiceAfter(front, a, b);
      AfterAppend(After(front, a), t, b);
    }
  }

  /** And it counts fewer once a later event has pruned a request above that time. */
  lemma {:induction false} ForgettingCountsFewer(events: seq<Event>, k: nat, j: nat, cfg: Config, window: int, above: int)
    requires IsWindow(window) && AllIn(events, cfg)
    requires k < j < |events| && events[k].Ask? && above < events[k].now <= events[j].now - window
    ensures |After(Slice(events, cfg, window), above)| < |After(Asked(events), above)|
  {
    var front, e := events[..|events| - 1], events[|events| - 1];
    assert events == front + [e];
    SliceAfter(front, e, cfg, window);
    var cutoff := e.now - window;
    if j < |front| {
      ForgettingCountsFewer(front, k, j, cfg, window, above);
      AfterShrinks(Slice(front, cfg, window), 0, above, Max(cutoff, above));
    } else {
      SliceCountsAtMost(front, cfg, window, cutoff);
      AskedContains(front, k);
      AfterShrinks(Asked(front), events[k].now, above, cutoff);
    }
    CountsAfterEvent(Slice(front, cfg, window), Asked(front), if e.Ask? then [e.now] else [], cutoff, above);
  }

  lemma OnlyDecides(c: Counter, now: int, m: int, window: int)
    requires IsWindow(window) && m > 0
    ensures Request(c, now, Only(window, m)).1.Admitted? <==> |After(SliceOf(c, window), now - window)| < m
  {
  }

  lemma OnlyDecidesFull(admitted: seq<int>, now: int, m: int, window: int)
    requires IsWindow(window) && m > 0
    ensures FullHistoryRule(admitted, now, Only(window, m)).Admitted? <==> |After(admitted, now - window)| < m
  {
  }

  lemma AdmittedByBoth(events: seq<Event>, now: int, cfg: Config)
    requires AllIn(events, cfg)
    requires Request(RunPruned(Counter([], []), events, cfg).0, now, cfg).1.Admitted?
    requires FullHistoryRule(RunFull(events, cfg).0, now, cfg).Admitted?
    ensures AllIn(events + [Ask(now)], cfg)
  {
    AskAppended(events, now, cfg);
    AskedGrows(events, Ask(now));
  }

  /** A request is let in, by both, while the history counts fewer than the limit. */
  lemma LetInBoth(events: seq<Event>, now: int, m: int, window: int)
    requires IsWindow(window) && AllIn(events, Only(window, m)) && m > 0
    requires |After(Asked(events), now - window)| < m
    ensures AllIn(events + [Ask(now)], Only(window, m))
  {
    LetInUnder(events, now, m, window, Only(window, m));
  }

  lemma LetInUnder(events: seq<Event>, now: int, m: int, window: int, cfg: Config)
    requires cfg == Only(window, m) && IsWindow(window) && AllIn(events, cfg) && m > 0
    requires |After(Asked(events), now - window)| < m
    ensures AllIn(events + [Ask(now)], cfg)
  {
    var c, h := RunPruned(Counter([], []), events, cfg).0, RunFull(events, cfg).0;
    assert |After(SliceOf(c, window), now - window)| < m by { SliceCountsAtMost(events, cfg, window, now - window); }
    assert Request(c, now, cfg).1.Admitted? by { OnlyDecides(c, now, m, window); }
    assert FullHistoryRule(h, now, cfg).Admitted? by { OnlyDecidesFull(h, now, m, window); }
    AdmittedByBoth(events, now, cfg);
  }

  /** Nobody is turned away while there are fewer events than the limit. */
  lemma {:induction false} FewAreLetIn(events: seq<Event>, m: int, window: int)
    requires IsWindow(window) && |events| < m
    ensures AllIn(events, Only(window, m)) && |Asked(events)| <= |events|
  {
    if events != [] {
      var front, e := events[..|events| - 1], events[|events| - 1];
      assert events == front + [e];
      FewAreLetIn(front, m, window);
      if e.Ask? {
        AfterIsShorter(Asked(front), e.now - window);
        LetInBoth(front, e.now, m, window);
      }
    }
  }

  function Again(e: Event, times: nat): seq<Event> { seq(times, _ => e) }

  lemma AgainGrows(e: Event, times: nat)
    ensures Again(e, times + 1) == Again(e, times) + [e]
  {
  }

  /** How many requests the history counts for one at `now`. */
  function Counted(events: seq<Event>, now: int, window: int): nat { |After(Asked(events), now - window)| }

  lemma OneMore(events: seq<Event>, now: int, m: int, window: int)
    requires IsWindow(window) && AllIn(events, Only(window, m)) && Counted(events, now, window) < m
    ensures AllIn(events + [Ask(now)], Only(window, m))
    ensures Counted(events + [Ask(now)], now, window) == Counted(events, now, window) + 1
  {
    LetInBoth(events, now, m, window);
    AskedGrows(events, Ask(now));
    assert window > 0;
    AfterAppend(Asked(events), now, now - window);
  }

  /** Asking again and again at one time fills the window up to the limit. */
  lemma {:induction false} FillUp(events: seq<Event>, now: int, m: int, window: int, times: nat)
    requires IsWindow(window) && AllIn(events, Only(window, m))
    requires Counted(events, now, window) + times <= m
    ensures AllIn(events + Again(Ask(now), times), Only(window, m))
    ensures Counted(events + Again(Ask(now), times), now, window) == Counted(events, now, window) + times
  {
    if times == 0 {
      assert events + Again(Ask(now), 0) == events;
    } else {
      FillUp(events, now, m, window, times - 1);
      OnceAgain(events, Ask(now), times - 1);
      OneMore(events + Again(Ask(now), times - 1), now, m, window);
    }
  }

  lemma OnceAgain(events: seq<Event>, e: Event, times: nat)
    ensures events + Again(e, times + 1) == (events + Again(e, times)) + [e]
  {
    AgainGrows(e, times);
  }

  /** At the limit, the slice that has forgotten something still lets one more through. */
  lemma FullButForgotten(full: seq<Event>, k: nat, j: nat, window: int, now: int, m: int)
    requires IsWindow(window) && AllIn(full, Only(window, m)) && Counted(full, now, window) == m > 0
    requires k < j < |full| && full[k].Ask? && now - window < full[k].now <= full[j].now - window
    ensures RunPruned(Counter([], []), full + [Ask(now)], Only(window, m)).1 != RunFull(full + [Ask(now)], Only(window, m)).1
  {
    StillAdmits(full, k, j, window, now, m);
    OnlyDecidesFull(RunFull(full, Only(window, m)).0, now, m, window);
    DifferAtLast(full, now, Only(window, m));
  }

  lemma StillAdmits(full: seq<Event>, k: nat, j: nat, window: int, now: int, m: int)
    requires IsWindow(window) && AllIn(full, Only(window, m)) && Counted(full, now, window) == m > 0
    requires k < j < |full| && full[k].Ask? && now - window < full[k].now <= full[j].now - window
    ensures Request(RunPruned(Counter([], []), full, Only(window, m)).0, now, Only(window, m)).1.Admitted?
  {
    ForgettingCountsFewer(full, k, j, Only(window, m), window, now - window);
    OnlyDecides(RunPruned(Counter([], []), full, Only(window, m)).0, now, m, window);
  }

  /** Where something is forgotten, some limit and enough further requests at the same clock reading
      are decided differently from the full history. */
  lemma ForgettingShows(events: seq<Event>, k: nat, j: nat, window: int, now: int) returns (cfg: Config, times: nat)
    requires IsWindow(window) && k < j < |events| && events[k].Ask?
    requires now - window < events[k].now <= events[j].now - window
    ensures times > 0
    ensures var all := events + Again(Ask(now), times);
            RunPruned(Counter([], []), all, cfg).1 != RunFull(all, cfg).1
  {
    var m := |events| + 1;
    cfg := Only(window, m);
    FewAreLetIn(events, m, window);
    AfterIsShorter(Asked(events), now - window);
    var room := m - Counted(events, now, window);
    FillUp(events, now, m, window, room);
    FullButForgotten(events + Again(Ask(now), room), k, j, window, now, m);
    AgainGrows(Ask(now), room);
    times := room + 1;
    assert events + Again(Ask(now), times) == (events + Again(Ask(now), room)) + [Ask(now)];
  }

  lemma DifferAtLast(events: seq<Event>, now: int, cfg: Config)
    requires Request(RunPruned(Counter([], []), events, cfg).0, now, cfg).1.Admitted?
    requires !FullHistoryRule(RunFull(events, cfg).0, now, cfg).Admitted?
    ensures RunPruned(Counter([], []), events + [Ask(now)], cfg).1 != RunFull(events + [Ask(now)], cfg).1
  {
    AskAppended(events, now, cfg);
    DecisionCounts(events, cfg);
    var p, q := RunPruned(Counter([], []), events, cfg), RunFull(events, cfg);
    assert (p.1 + [Request(p.0, now, cfg).1])[|p.1|] != (q.1 + [FullHistoryRule(q.0, now, cfg)])[|p.1|];
  }

  /** Repeating the last request keeps a run tolerable. */
  lemma {:induction false} RepeatingIsTolerable(events: seq<Event>, e: Event, times: nat)
    requires Tolerable(events + [e]) && e.Ask?
    ensures Tolerable(events + Again(e, times))
  {
    var all := events + Again(e, times);
    forall k: nat, j: nat, n: nat | k < j < n < |all| ensures Remembers(all, k, j, n) {
      if n < |events| {
        assert Remembers(events + [e], k, j, n);
      } else if j < |events| {
        assert Remembers(events + [e], k, j, |events|);
      }
    }
  }

  /** Exactly which skews matter: no event prunes what a later request would still count if and only
      if, whatever the limits, every request of the run and any repetition of it are decided as the
      full history decides. */
  lemma SkewIsHarmlessIff(events: seq<Event>)
    ensures Tolerable(events) <==>
      forall cfg, n: nat, times: nat | n < |events| && events[n].Ask? ::
        var all := events[..n] + Again(events[n], times);
        RunPruned(Counter([], []), all, cfg).1 == RunFull(all, cfg).1
  {
    if Tolerable(events) {
      forall cfg, n: nat, times: nat | n < |events| && events[n].Ask?
        ensures var all := events[..n] + Again(events[n], times);
                RunPruned(Counter([], []), all, cfg).1 == RunFull(all, cfg).1
      {
        PrefixIsTolerable(events, n);
        RepeatingIsTolerable(events[..n], events[n], times);
        TolerableRunsDecideAlike(events[..n] + Again(events[n], times), cfg);
      }
    } else {
      var k: nat, j: nat, n: nat :| k < j < n < |events| && !Remembers(events, k, j, n);
      var window := if Forgets(events, k, j, n, HOUR) then HOUR else DAY;
      var cfg, times := ForgettingShows(events[..n], k, j, window, events[n].now);
      assert events[n] == Ask(events[n].now);
      var all := events[..n] + Again(events[n], times);
      assert RunPruned(Counter([], []), all, cfg).1 != RunFull(all, cfg).1;
    }
  }

  lemma PrefixIsTolerable(events: seq<Event>, n: nat)
    requires Tolerable(events) && n < |events|
    ensures Tolerable(events[..n] + [events[n]])
  {
    var all := events[..n] + [events[n]];
    forall k: nat, j: nat, m: nat | k < j < m < |all| ensures Remembers(all, k, j, m) {
      assert Remembers(events, k, j, m);
    }
  }

  /** A single nanosecond is enough: a sweep at one hour forgets a transfer of time zero, which a
      request that read the clock just before still lies within the hour of; with a limit of one
      both are let through. */
  lemma SkewedClockForgets()
    ensures var cfg := Config(1, 0);
            var events := [Ask(0), Sweep(HOUR), Ask(HOUR - 1)];
            && !Tolerable(events)
            && RunFull(events, cfg).1 == [Admitted, HourlyLimit]
            && LetThrough(events, cfg) == [0, HOUR - 1]
            && CountIn(LetThrough(events, cfg), -1, HOUR - 1) == 2
  {
    var events := [Ask(0), Sweep(HOUR), Ask(HOUR - 1)];
    assert !Remembers(events, 0, 1, 2);
    ThenAskedAgain(Config(1, 0));
    CountsBoth();
  }

  lemma CountsBoth()
    ensures CountIn([0, HOUR - 1], -1, HOUR - 1) == 2
  {
    assert [0, HOUR - 1][..1] == [0] && [0][..0] == [];
    assert CountIn([0], -1, HOUR - 1) == 1;
  }

  lemma FirstAdmitted(cfg: Config)
    requires cfg == Config(1, 0)
    ensures RunPruned(Counter([], []), [Ask(0)], cfg) == (Counter([0], [0]), [Admitted])
    ensures RunFull([Ask(0)], cfg) == ([0], [Admitted])
  {
    assert [] + [Ask(0)] == [Ask(0)] && [] + [0] == [0] && [] + [Admitted] == [Admitted];
    AskAppended([], 0, cfg);
    assert Request(Counter([], []), 0, cfg) == (Counter([0], [0]), Admitted);
  }

  lemma FirstLetThrough(cfg: Config)
    requires cfg == Config(1, 0)
    ensures LetThrough([Ask(0)], cfg) == [0]
  {
    assert [] + [Ask(0)] == [Ask(0)] && [] + [0] == [0];
    LetThroughAppended([], 0, cfg);
    assert Request(Counter([], []), 0, cfg).1 == Admitted;
  }

  lemma LetThroughAppended(events: seq<Event>, now: int, cfg: Config)
    ensures LetThrough(events + [Ask(now)], cfg) == LetThrough(events, cfg) +
      if Request(RunPruned(Counter([], []), events, cfg).0, now, cfg).1.Admitted? then [now] else []
  {
    assert (events + [Ask(now)])[..|events|] == events;
  }

  lemma ThenSwept(cfg: Config)
    requires cfg == Config(1, 0)
    ensures RunPruned(Counter([], []), [Ask(0), Sweep(HOUR)], cfg) == (Counter([], [0]), [Admitted])
    ensures RunFull([Ask(0), Sweep(HOUR)], cfg) == ([0], [Admitted]) && LetThrough([Ask(0), Sweep(HOUR)], cfg) == [0]
  {
    assert [Ask(0), Sweep(HOUR)][..1] == [Ask(0)];
    FirstAdmitted(cfg);
    FirstLetThrough(cfg);
    AfterOfOne(0, 0);
    AfterOfOne(0, HOUR - DAY);
  }

  lemma LastRequests(cfg: Config)
    requires cfg == Config(1, 0)
    ensures Request(Counter([], [0]), HOUR - 1, cfg).1 == Admitted
    ensures FullHistoryRule([0], HOUR - 1, cfg) == HourlyLimit
  {
    AfterOfOne(0, -1);
  }

  /** A run that forgot its one admission within the hour admits a second. */
  lemma AskedAgainAfter(events: seq<Event>, cfg: Config)
    requires cfg == Config(1, 0) && RunPruned(Counter([], []), events, cfg).0 == Counter([], [0])
    requires RunFull(events, cfg) == ([0], [Admitted]) && LetThrough(events, cfg) == [0]
    ensures RunFull(events + [Ask(HOUR - 1)], cfg).1 == [Admitted] + [HourlyLimit]
    ensures LetThrough(events + [Ask(HOUR - 1)], cfg) == [0] + [HOUR - 1]
  {
    AskAppended(events, HOUR - 1, cfg);
    LetThroughAppended(events, HOUR - 1, cfg);
    LastRequests(cfg);
  }

  lemma ThenAskedAgain(cfg: Config)
    requires cfg == Config(1, 0)
    ensures var events := [Ask(0), Sweep(HOUR), Ask(HOUR - 1)];
            RunFull(events, cfg).1 == [Admitted, HourlyLimit] && LetThrough(events, cfg) == [0, HOUR - 1]
  {
    ThenSwept(cfg);
    AskedAgainAfter([Ask(0), Sweep(HOUR)], cfg);
    assert [Ask(0), Sweep(HOUR)] + [Ask(HOUR - 1)] == [Ask(0), Sweep(HOUR), Ask(HOUR - 1)];
  }

  // ---- what the limits guarantee ----

  /** How many of the times fall in (from, to]. */
  function CountIn(ts: seq<int>, from: int, to: int): nat
  {
    if ts == [] then 0
    else CountIn(ts[..|ts| - 1], from, to) + if from < ts[|ts| - 1] <= to then 1 else 0
  }

  lemma {:induction false} CountAtMostAfter(ts: seq<int>, from: int, to: int, cutoff: int)
    requires cutoff <= from
    ensures CountIn(ts, from, to) <= |After(ts, cutoff)|
  {
    if ts != [] {
      CountAtMostAfter(ts[..|ts| - 1], from, to, cutoff);
    }
  }

  /** Entry `k` was let in with fewer than `limit` others in the window that ends at it. */
  predicate LetIn(admitted: seq<int>, k: nat, window: int, limit: int)
    requires k < |admitted|
  {
    |After(admitted[..k], admitted[k] - window)| < limit
  }

  predicate Spaced(admitted: seq<int>, window: int, limit: int)
  {
    forall k: nat | k < |admitted| :: LetIn(admitted, k, window, limit)
  }

  lemma LetInFront(admitted: seq<int>, n: nat, k: nat, window: int, limit: int)
    requires k < n <= |admitted|
    ensures LetIn(admitted[..n], k, window, limit) == LetIn(admitted, k, window, limit)
  {
    assert admitted[..n][..k] == admitted[..k];
  }

  lemma SpacedFront(admitted: seq<int>, n: nat, window: int, limit: int)
    requires n <= |admitted| && Spaced(admitted, window, limit)
    ensures Spaced(admitted[..n], window, limit)
  {
    forall k: nat | k < n ensures LetIn(admitted[..n], k, window, limit) {
      LetInFront(admitted, n, k, window, limit);
    }
  }

  /** Entries spaced like that never crowd a window, wherever it starts. */
  lemma {:induction false} WindowNeverCrowded(admitted: seq<int>, window: nat, limit: int, start: int)
    requires Spaced(admitted, window, limit) && limit > 0
    ensures CountIn(admitted, start, start + window) <= limit
  {
    if admitted != [] {
      var n := |admitted| - 1;
      var front, t := admitted[..n], admitted[n];
      SpacedFront(admitted, n, window, limit);
      WindowNeverCrowded(front, window, limit, start);
      if start < t <= start + window {
        assert LetIn(admitted, n, window, limit);
        CountAtMostAfter(front, start, start + window, t - window);
      }
    }
  }

  lemma SpacedAppend(admitted: seq<int>, t: int, window: int, limit: int)
    requires Spaced(admitted, window, limit) && |After(admitted, t - window)| < limit
    ensures Spaced(admitted + [t], window, limit)
  {
    var after := admitted + [t];
    assert after[..|admitted|] == admitted;
    forall k: nat | k < |after| ensures LetIn(after, k, window, limit) {
      if k < |admitted| {
        LetInFront(after, |admitted|, k, window, limit);
      }
    }
  }

  lemma {:induction false} AdmittedAreSpaced(events: seq<Event>, cfg: Config, window: int, limit: int)
    requires (window == HOUR && limit == cfg.maxPerHour) || (window == DAY && limit == cfg.maxPerDay)
    requires limit > 0
    ensures Spaced(RunFull(events, cfg).0, window, limit)
  {
    if events != [] {
      var front, e := events[..|events| - 1], events[|events| - 1];
      AdmittedAreSpaced(front, cfg, window, limit);
      var before := RunFull(front, cfg).0;
      if e.Ask? && FullHistoryRule(before, e.now, cfg).Admitted? {
        SpacedAppend(before, e.now, window, limit);
      }
    }
  }

  lemma FullHistoryKeepsLimits(events: seq<Event>, cfg: Config, start: int)
    ensures var admitted := RunFull(events, cfg).0;
            && (cfg.maxPerHour > 0 ==> CountIn(admitted, start, start + HOUR) <= cfg.maxPerHour)
            && (cfg.maxPerDay > 0 ==> CountIn(admitted, start, start + DAY) <= cfg.maxPerDay)
  {
    var admitted := RunFull(events, cfg).0;
    if cfg.maxPerHour > 0 {
      AdmittedAreSpaced(events, cfg, HOUR, cfg.maxPerHour);
      WindowNeverCrowded(admitted, HOUR, cfg.maxPerHour, start);
    }
    if cfg.maxPerDay > 0 {
      AdmittedAreSpaced(events, cfg, DAY, cfg.maxPerDay);
      WindowNeverCrowded(admitted, DAY, cfg.maxPerDay, start);
    }
  }

  /** Safety of the limiter as written: whenever the skew forgets nothing, and so whenever events are
      in clock order, no hour-long window holds more than maxPerHour of the transfers it lets
      through, and no day-long one more than maxPerDay, wherever the window starts. */
  lemma NoWindowExceedsItsLimit(events: seq<Event>, cfg: Config, start: int)
    requires Tolerable(events)
    ensures cfg.maxPerHour > 0 ==> CountIn(LetThrough(events, cfg), start, start + HOUR) <= cfg.maxPerHour
    ensures cfg.maxPerDay > 0 ==> CountIn(LetThrough(events, cfg), start, start + DAY) <= cfg.maxPerDay
  {
    TolerableRunsDecideAlike(events, cfg);
    SameDecisionsSameTimes(events, cfg);
    FullHistoryKeepsLimits(events, cfg, start);
  }

  // ---- what a request is answered ----

  /** How many of the times are later than the cutoff. */
  function Later(ts: seq<int>, cutoff: int): nat
  {
    if ts == [] then 0 else Later(ts[..|ts| - 1], cutoff) + if ts[|ts| - 1] > cutoff then 1 else 0
  }

  lemma {:induction false} AfterCounts(ts: seq<int>, cutoff: int)
    ensures |After(ts, cutoff)| == Later(ts, cutoff)
  {
    if ts != [] {
      AfterCounts(ts[..|ts| - 1], cutoff);
    }
  }

  /** What a request is answered, told from the transfers let through before it: the hourly limit when it
      is on and as many fell in the last hour; else the daily one when it is on and as many fell in the
      last day; and otherwise it is let through. Either limit is switched off at zero. */
  lemma LimiterAnswers(events: seq<Event>, now: int, cfg: Config)
    requires Tolerable(events + [Ask(now)])
    ensures var before := LetThrough(events, cfg);
            var hourly := cfg.maxPerHour > 0 && Later(before, now - 3_600_000_000_000) >= cfg.maxPerHour;
            var daily := cfg.maxPerDay > 0 && Later(before, now - 86_400_000_000_000) >= cfg.maxPerDay;
            && RunPruned(Counter([], []), events + [Ask(now)], cfg).1
               == RunPruned(Counter([], []), events, cfg).1 + [if hourly then HourlyLimit else if daily then DailyLimit else Admitted]
            && LetThrough(events + [Ask(now)], cfg) == before + if hourly || daily then [] else [now]
  {
    TolerableRunsDecideAlike(events + [Ask(now)], cfg);
    AskAppended(events, now, cfg);
    LetThroughAppended(events, now, cfg);
    var c, h := RunPruned(Counter([], []), events, cfg), RunFull(events, cfg);
    LastsAgree(c.1, Request(c.0, now, cfg).1, h.1, FullHistoryRule(h.0, now, cfg));
    SameDecisionsSameTimes(events, cfg);
    AfterCounts(h.0, now - HOUR);
    AfterCounts(h.0, now - DAY);
  }

  // ---- the counter as the code has it ----

  /** Keep the entries of a[..n] after the cutoff, compacted to the front of the same array. */
  method Compact(a: array<int>, n: nat, cutoff: int) returns (m: nat)
    requires n <= a.Length
    modifies a
    ensures m <= n && a[..m] == After(old(a[..n]), cutoff)
  {
    m := 0;
    for i := 0 to n
      invariant m <= i
      invariant a[..m] == After(old(a[..n])[..i], cutoff)
      invariant a[i..n] == old(a[i..n])
    {
      var t := a[i];
      assert t == old(a[..n])[i] by { assert a[i..n][0] == old(a[i..n])[0]; }
      assert old(a[..n])[..i + 1][..i] == old(a[..n])[..i];
      if t > cutoff {
        a[m] := t;
        m := m + 1;
      }
      assert a[i + 1..n] == old(a[i..n])[1..];
    }
    assert old(a[..n])[..n] == old(a[..n]);
  }

  /** Append after the first n entries, growing into a new array when there is no room. */
  method Push(a: array<int>, n: nat, t: int) returns (b: array<int>)
    requires n <= a.Length
    modifies a
    ensures b == a || fresh(b)
    ensures n + 1 <= b.Length && b[..n + 1] == old(a[..n]) + [t]
  {
    if n < a.Length {
      b := a;
    } else {
      b := new int[2 * n + 1];
      forall i | 0 <= i < n {
        b[i] := a[i];
      }
    }
    b[n] := t;
  }

  class TransferCounter {
    var hourly: array<int>
    var hours: nat
    var daily: array<int>
    var days: nat

    ghost predicate Valid()
      reads this
    {
      hourly != daily && hours <= hourly.Length && days <= daily.Length
    }

    ghost function View(): Counter
      reads this, hourly, daily
      requires Valid()
    {
      Counter(hourly[..hours], daily[..days])
    }

    constructor ()
      ensures Valid() && View() == Counter([], [])
      ensures fresh(hourly) && fresh(daily)
    {
      hourly, hours := new int[4], 0;
      daily, days := new int[4], 0;
    }

    method Cleanup(now: int)
      requires Valid()
      modifies this, hourly, daily
      ensures Valid() && hourly == old(hourly) && daily == old(daily)
      ensures View() == Cleaned(old(View()), now)
    {
      hours := Compact(hourly, hours, now - HOUR);
      days := Compact(daily, days, now - DAY);
    }

    /** The critical section of the middleware for one request. */
    method Handle(now: int, cfg: Config) returns (d: Decision)
      requires Valid()
      modifies this, hourly, daily
      ensures Valid()
      ensures hourly == old(hourly) || fresh(hourly)
      ensures daily == old(daily) || fresh(daily)
      ensures (View(), d) == Request(old(View()), now, cfg)
    {
      Cleanup(now);
      if cfg.maxPerHour > 0 && hours >= cfg.maxPerHour {
        return HourlyLimit;
      }
      if cfg.maxPerDay > 0 && days >= cfg.maxPerDay {
        return DailyLimit;
      }
      hourly := Push(hourly, hours, now);
      hours := hours + 1;
      daily := Push(daily, days, now);
      days := days + 1;
      return Admitted;
    }
  }
}
