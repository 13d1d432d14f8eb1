/** Calls processing one payroll run at the same time: load, mark, send and close as steps of
    each, interleaved in every way. */
module PayrollOverlap {
  import opened Common
  import opened PayrollRuns
  import Bulk

  /** Where a call is: about to load the run, to save it as processing, to send the batch, to save
      what came of it; or over. */
  datatype Pc = Load | Mark | Send | Close | Over

  datatype Caller = Caller(pc: Pc, w: Weather)

  datatype Overlap = Overlap(run: Run, callers: seq<Caller>)

  /** The status a call saves at the end; what it loaded and marked is what it saves over the row. */
  function Verdict(r: Run, w: Weather): Status
  {
    if CountsAsPaid(w.batch, r.id, |Requests(r.id, r.entries)|) then Completed else Failed
  }

  /** One database statement, or the batch transfer, of one call. */
  function StepOf(r: Run, c: Caller): (Run, Caller)
    requires !c.pc.Over?
  {
    match c.pc
    case Load => (r, c.(pc := if c.w.found && Processable(r.status) then Mark else Over))
    case Mark =>
      (After(r, r.(status := Processing), c.w.marking),
       c.(pc := if c.w.marking.Saved? && Requests(r.id, r.entries) != [] then Send else Over))
    case Send => (r.(disbursed := r.disbursed + 1), c.(pc := Close))
    case Close =>
      var closed := After(r, r.(status := Verdict(r, c.w)), c.w.closing);
      (closed.(loanUpdates := closed.loanUpdates + if c.w.closing.Saved? && Verdict(r, c.w).Completed? then 1 else 0),
       c.(pc := Over))
  }

  predicate Runs(p: Overlap, i: nat) { i < |p.callers| && !p.callers[i].pc.Over? }

  function Next(p: Overlap, i: nat): Overlap
    requires Runs(p, i)
  {
    var (r, c) := StepOf(p.run, p.callers[i]);
    Overlap(r, p.callers[i := c])
  }

  predicate Legal(p: Overlap, schedule: seq<nat>)
    decreases |schedule|
  {
    schedule != [] ==> Runs(p, schedule[0]) && Legal(Next(p, schedule[0]), schedule[1..])
  }

  function Final(p: Overlap, schedule: seq<nat>): Overlap
    requires Legal(p, schedule)
    decreases |schedule|
  {
    if schedule == [] then p else Final(Next(p, schedule[0]), schedule[1..])
  }

  predicate Done(p: Overlap) { forall i | 0 <= i < |p.callers| :: p.callers[i].pc.Over? }

  /** A call with nothing in between is the processing of the run. */
  lemma AloneIsProcess(r: Run, w: Weather) returns (schedule: seq<nat>)
    ensures Legal(Overlap(r, [Caller(Load, w)]), schedule)
    ensures var p := Final(Overlap(r, [Caller(Load, w)]), schedule); Done(p) && p.run == Process(r, w).0
  {
    var p0 := Overlap(r, [Caller(Load, w)]);
    var p1 := Next(p0, 0);
    if p1.callers[0].pc.Over? {
      schedule := Then(p0, 0, []);
    } else {
      var p2 := Next(p1, 0);
      if p2.callers[0].pc.Over? {
        schedule := Then(p1, 0, []);
        schedule := Then(p0, 0, schedule);
      } else {
        var p3 := Next(p2, 0);
        schedule := Then(p3, 0, []);
        schedule := Then(p2, 0, schedule);
        schedule := Then(p1, 0, schedule);
        schedule := Then(p0, 0, schedule);
      }
    }
  }

  lemma Then(p: Overlap, i: nat, rest: seq<nat>) returns (schedule: seq<nat>)
    requires Runs(p, i) && Legal(Next(p, i), rest)
    ensures Legal(p, schedule) && Final(p, schedule) == Final(Next(p, i), rest)
  {
    schedule := [i] + rest;
    assert schedule[1..] == rest;
  }

  // ---- how often a run is disbursed ----

  /** Whether a call past its load will still send. */
  function Bound(r: Run): Caller -> int
  {
    (c: Caller) =>
      if c.pc.Send? || (c.pc.Mark? && c.w.marking.Saved? && Requests(r.id, r.entries) != []) then 1 else 0
  }

  /** The disbursements made and those that are bound to follow. */
  function Expected(p: Overlap): int { p.run.disbursed + Sum(p.callers, Bound(p.run)) }

  lemma BoundStays(r: Run, q: Run, callers: seq<Caller>)
    requires q.id == r.id && q.entries == r.entries
    ensures Sum(callers, Bound(q)) == Sum(callers, Bound(r))
  {
    SumCongruent(callers, Bound(q), Bound(r));
  }

  /** Loading an unmarked run is what binds a call that will mark it; no other step changes what is
      to be expected. */
  lemma StepExpects(p: Overlap, i: nat)
    requires Runs(p, i) && Requests(p.run.id, p.run.entries) != []
    ensures var c := p.callers[i];
            Expected(Next(p, i)) == Expected(p) +
              if c.pc.Load? && Processable(p.run.status) && c.w.found && c.w.marking.Saved? then 1 else 0
    ensures Next(p, i).run.(status := p.run.status, disbursed := p.run.disbursed, loanUpdates := p.run.loanUpdates) == p.run
  {
    var (r, c) := StepOf(p.run, p.callers[i]);
    SumUpdate(p.callers, i, c, Bound(p.run));
    BoundStays(p.run, r, p.callers[i := c]);
  }

  lemma {:induction false} NothingBound(callers: seq<Caller>, r: Run)
    requires forall i | 0 <= i < |callers| :: callers[i].pc.Over?
    ensures Sum(callers, Bound(r)) == 0
  {
    if callers != [] {
      NothingBound(callers[..|callers| - 1], r);
    }
  }

  // ---- how many calls disburse ----

  function StartAll(r: Run, ws: seq<Weather>): Overlap
  {
    Overlap(r, seq(|ws|, i requires 0 <= i < |ws| => Caller(Load, ws[i])))
  }

  /** How many of the steps are call `i`'s. */
  function Turns(schedule: seq<nat>, i: nat): nat
  {
    if schedule == [] then 0
    else Turns(schedule[..|schedule| - 1], i) + if schedule[|schedule| - 1] == i then 1 else 0
  }

  /** Some call that finds the run has loaded it and saved its mark, and the save took effect. */
  predicate Marked(ws: seq<Weather>, past: seq<nat>)
  {
    exists j :: 0 <= j < |ws| && ws[j].found && !ws[j].marking.Lost? && Turns(past, j) >= 2
  }

  /** Call `i` finds the run, marks it, and takes its first step when the run is not yet marked. */
  predicate Disburses(ws: seq<Weather>, schedule: seq<nat>, i: nat)
    requires i < |ws|
  {
    && ws[i].found && ws[i].marking.Saved?
    && exists k :: 0 <= k < |schedule| && schedule[k] == i && Turns(schedule[..k], i) == 0 && !Marked(ws, schedule[..k])
  }

  /** Where a call is while the run is unmarked, told from its turns. */
  predicate Placed(w: Weather, turns: nat, c: Caller)
  {
    && (turns == 1 ==> c.pc == if w.found then Mark else Over)
    && (turns >= 2 ==> c.pc.Over?)
  }

  predicate Shape(ws: seq<Weather>, past: seq<nat>, p: Overlap)
  {
    && |p.callers| == |ws|
    && (forall i | 0 <= i < |ws| :: p.callers[i].w == ws[i] && (p.callers[i].pc.Load? <==> Turns(past, i) == 0))
    && (Processable(p.run.status) <==> !Marked(ws, past))
    && (Processable(p.run.status) ==> forall i | 0 <= i < |ws| :: Placed(ws[i], Turns(past, i), p.callers[i]))
  }

  lemma TurnsAppend(past: seq<nat>, i: nat, j: nat)
    ensures Turns(past + [i], j) == Turns(past, j) + if i == j then 1 else 0
  {
    assert (past + [i])[..|past|] == past;
  }

  lemma MarkedAppend(ws: seq<Weather>, past: seq<nat>, i: nat)
    requires i < |ws|
    ensures Marked(ws, past + [i]) <==>
      Marked(ws, past) || (ws[i].found && !ws[i].marking.Lost? && Turns(past, i) >= 1)
  {
    forall j: nat ensures Turns(past + [i], j) == Turns(past, j) + if i == j then 1 else 0 {
      TurnsAppend(past, i, j);
    }
    if j :| 0 <= j < |ws| && ws[j].found && !ws[j].marking.Lost? && Turns(past, j) >= 2 {
      assert Turns(past + [i], j) >= 2;
    }
    if ws[i].found && !ws[i].marking.Lost? && Turns(past, i) >= 1 {
      assert Turns(past + [i], i) >= 2;
    }
  }

  lemma StepKeepsShape(ws: seq<Weather>, past: seq<nat>, p: Overlap, i: nat)
    requires Shape(ws, past, p) && Runs(p, i)
    ensures Shape(ws, past + [i], Next(p, i))
  {
    MarkedAppend(ws, past, i);
    forall j: nat ensures Turns(past + [i], j) == Turns(past, j) + if i == j then 1 else 0 {
      TurnsAppend(past, i, j);
    }
    assert Placed(ws[i], Turns(past, i), p.callers[i]) || !Processable(p.run.status);
  }

  /** The calls that disburse and have yet to load. */
  function Winners(ws: seq<Weather>, past: seq<nat>, schedule: seq<nat>): set<nat>
  {
    set i: nat | i < |ws| && Turns(past, i) == 0 && Disburses(ws, schedule, i)
  }

  lemma FirstTurnIsEarliest(schedule: seq<nat>, i: nat, k: nat, m: nat)
    requires k < m < |schedule| && schedule[k] == i
    ensures Turns(schedule[..m], i) > 0
  {
    TurnsOfPrefix(schedule[..m], k + 1, i);
    assert schedule[..m][..k + 1] == schedule[..k] + [i];
    TurnsAppend(schedule[..k], i, i);
  }

  /** A call loads for the first time: it disburses exactly when the run is still unmarked. */
  lemma LoadDecides(ws: seq<Weather>, past: seq<nat>, i: nat, rest: seq<nat>)
    requires i < |ws| && Turns(past, i) == 0
    ensures Disburses(ws, past + [i] + rest, i) <==> ws[i].found && ws[i].marking.Saved? && !Marked(ws, past)
  {
    var schedule := past + [i] + rest;
    var n := |past|;
    assert schedule[..n] == past && schedule[n] == i;
    forall k | 0 <= k < |schedule| && schedule[k] == i && Turns(schedule[..k], i) == 0 ensures k == n {
      if k < n {
        FirstTurnIsEarliest(schedule, i, k, n);
      } else if k > n {
        FirstTurnIsEarliest(schedule, i, n, k);
      }
    }
  }

  lemma {:induction false} TurnsOfPrefix(schedule: seq<nat>, k: nat, i: nat)
    requires k <= |schedule|
    ensures Turns(schedule[..k], i) <= Turns(schedule, i)
  {
    if k < |schedule| {
      var n := |schedule| - 1;
      TurnsOfPrefix(schedule[..n], k, i);
      assert schedule[..n][..k] == schedule[..k];
    } else {
      assert schedule[..k] == schedule;
    }
  }

  lemma NextWinners(ws: seq<Weather>, past: seq<nat>, i: nat, schedule: seq<nat>)
    requires i < |ws|
    ensures Winners(ws, past + [i], schedule) == Winners(ws, past, schedule) - {i}
  {
    forall j: nat ensures Turns(past + [i], j) == Turns(past, j) + if i == j then 1 else 0 {
      TurnsAppend(past, i, j);
    }
  }

  lemma WinnersLeft(ws: seq<Weather>, past: seq<nat>, i: nat, schedule: seq<nat>)
    requires i < |ws|
    ensures |Winners(ws, past, schedule)| == |Winners(ws, past + [i], schedule)| +
      if Turns(past, i) == 0 && Disburses(ws, schedule, i) then 1 else 0
  {
    var before := Winners(ws, past, schedule);
    NextWinners(ws, past, i, schedule);
    assert i in before <==> Turns(past, i) == 0 && Disburses(ws, schedule, i);
    if i !in before {
      assert before - {i} == before;
    }
  }

  lemma StepTakesWinner(ws: seq<Weather>, past: seq<nat>, p: Overlap, i: nat, rest: seq<nat>)
    requires Shape(ws, past, p) && Runs(p, i) && Requests(p.run.id, p.run.entries) != []
    ensures var schedule := past + [i] + rest;
            Expected(Next(p, i)) + |Winners(ws, past + [i], schedule)| == Expected(p) + |Winners(ws, past, schedule)|
  {
    StepExpects(p, i);
    WinnersLeft(ws, past, i, past + [i] + rest);
    if Turns(past, i) == 0 {
      LoadDecides(ws, past, i, rest);
    }
  }

  lemma {:induction false} DisbursedByWinners(ws: seq<Weather>, past: seq<nat>, p: Overlap, rest: seq<nat>)
    requires Shape(ws, past, p) && Legal(p, rest) && Done(Final(p, rest))
    requires Requests(p.run.id, p.run.entries) != []
    ensures Final(p, rest).run.disbursed == Expected(p) + |Winners(ws, past, past + rest)|
    decreases |rest|
  {
    if rest == [] {
      NothingBound(p.callers, p.run);
      assert Winners(ws, past, past + rest) == {};
    } else {
      var i := rest[0];
      assert past + rest == past + [i] + rest[1..];
      StepKeepsShape(ws, past, p, i);
      StepTakesWinner(ws, past, p, i, rest[1..]);
      StepExpects(p, i);
      DisbursedByWinners(ws, past + [i], Next(p, i), rest[1..]);
    }
  }

  lemma {:induction false} NobodyBound(callers: seq<Caller>, r: Run)
    requires forall i | 0 <= i < |callers| :: callers[i].pc.Load?
    ensures Sum(callers, Bound(r)) == 0
  {
    if callers != [] {
      NobodyBound(callers[..|callers| - 1], r);
    }
  }

  lemma StartsInShape(r: Run, ws: seq<Weather>)
    requires Processable(r.status)
    ensures Shape(ws, [], StartAll(r, ws))
  {
  }

  /** How often any number of overlapping calls disburse a run: once for each call that finds it, marks
      it, and loads it before any mark has taken effect. */
  lemma OverlappingCallsDisburse(r: Run, ws: seq<Weather>, schedule: seq<nat>)
    requires Processable(r.status) && Requests(r.id, r.entries) != []
    requires Legal(StartAll(r, ws), schedule) && Done(Final(StartAll(r, ws), schedule))
    ensures Final(StartAll(r, ws), schedule).run.disbursed
         == r.disbursed + |set i: nat | i < |ws| && Disburses(ws, schedule, i)|
  {
    var p := StartAll(r, ws);
    NobodyBound(p.callers, r);
    StartsInShape(r, ws);
    DisbursedByWinners(ws, [], p, schedule);
    assert [] + schedule == schedule;
    assert Winners(ws, [], schedule) == set i: nat | i < |ws| && Disburses(ws, schedule, i);
  }

  /** Both calls load before either marks, and both go on to mark the run. */
  predicate BothGetThrough(a: Weather, b: Weather, schedule: seq<nat>)
  {
    && |schedule| >= 2 && schedule[0] != schedule[1]
    && a.found && b.found && a.marking.Saved? && b.marking.Saved?
  }

  lemma UnmarkedAtFirst(ws: seq<Weather>, past: seq<nat>)
    requires |past| <= 1
    ensures !Marked(ws, past)
  {
    forall j: nat ensures Turns(past, j) <= 1 {
      assert past != [] ==> past[..|past| - 1] == [];
    }
  }

  lemma BothFirst(a: Weather, b: Weather, schedule: seq<nat>)
    requires BothGetThrough(a, b, schedule) && schedule[0] < 2 && schedule[1] < 2
    ensures Disburses([a, b], schedule, 0) && Disburses([a, b], schedule, 1)
  {
    UnmarkedAtFirst([a, b], schedule[..0]);
    UnmarkedAtFirst([a, b], schedule[..1]);
    assert schedule[..1] == [] + [schedule[0]];
    TurnsAppend([], schedule[0], schedule[1]);
  }

  /** When a call takes the first two steps and marks the run, no other call disburses. */
  lemma FirstTwoSteps(ws: seq<Weather>, schedule: seq<nat>, i: nat, j: nat)
    requires i < |ws| && j < |ws| && i != j && |schedule| >= 2 && schedule[0] == schedule[1] == i
    requires ws[i].found && ws[i].marking.Saved?
    ensures !Disburses(ws, schedule, j)
  {
    forall k | 0 <= k < |schedule| && schedule[k] == j ensures Marked(ws, schedule[..k]) {
      assert schedule[..k][..2] == ([] + [i]) + [i];
      TurnsAppend([], i, i);
      TurnsAppend([] + [i], i, i);
      TurnsOfPrefix(schedule[..k], 2, i);
    }
  }

  lemma BothDisburseIff(a: Weather, b: Weather, schedule: seq<nat>)
    requires |schedule| >= 2 ==> schedule[0] < 2 && schedule[1] < 2
    ensures Disburses([a, b], schedule, 0) && Disburses([a, b], schedule, 1) <==> BothGetThrough(a, b, schedule)
  {
    if BothGetThrough(a, b, schedule) {
      BothFirst(a, b, schedule);
    } else if Disburses([a, b], schedule, 0) && Disburses([a, b], schedule, 1) {
      assert 0 in schedule && 1 in schedule;
      FirstTwoSteps([a, b], schedule, schedule[0], 1 - schedule[0]);
    }
  }

  lemma FirstStepsAreLegal(p: Overlap, schedule: seq<nat>)
    requires Legal(p, schedule) && |schedule| >= 2
    ensures schedule[0] < |p.callers| && schedule[1] < |p.callers|
  {
    assert schedule[1..][0] == schedule[1];
    assert Legal(Next(p, schedule[0]), schedule[1..]);
  }

  /** When two overlapping calls disburse a run twice: exactly when each finds it and its marking save
      succeeds, and both load it before either marks it. */
  lemma OverlappingCallsDisburseTwiceIff(r: Run, a: Weather, b: Weather, schedule: seq<nat>)
    requires Processable(r.status) && r.disbursed == 0 && Requests(r.id, r.entries) != []
    requires Legal(StartAll(r, [a, b]), schedule) && Done(Final(StartAll(r, [a, b]), schedule))
    ensures Final(StartAll(r, [a, b]), schedule).run.disbursed == 2 <==> BothGetThrough(a, b, schedule)
  {
    OverlappingCallsDisburse(r, [a, b], schedule);
    var winners := set i: nat | i < 2 && Disburses([a, b], schedule, i);
    if |schedule| >= 2 {
      FirstStepsAreLegal(StartAll(r, [a, b]), schedule);
    }
    BothDisburseIff(a, b, schedule);
    TwoOfTwo(winners);
  }

  lemma TwoOfTwo(s: set<nat>)
    requires forall i | i in s :: i < 2
    ensures |s| == 2 <==> 0 in s && 1 in s
  {
    var rest := s - {0, 1};
    assert rest == {};
    if 0 in s && 1 in s {
      assert s == {0, 1};
    } else if 0 in s {
      assert s == {0};
    } else if 1 in s {
      assert s == {1};
    } else {
      assert s == {};
    }
  }
}
