/** Bulk transfers as concurrent singles: a producer, a fixed pool of workers and two buffered
    channels, under every interleaving. Jobs and results are named by the index of their request. */
module WorkerPool {
  import opened Common

  datatype Worker = Idle | Holding(job: nat) | Gone

  /** `sent` jobs have been put on the channel out of `total`; both channels hold `total` items. */
  datatype Pool = Pool(
    total: nat, sent: nat, closed: bool, jobs: seq<nat>, workers: seq<Worker>, results: seq<nat>, collected: bool)

  const WORKERS := 5

  function Launch(total: nat, workers: nat): Pool
  {
    Pool(total, 0, false, [], seq(workers, _ => Idle), [], false)
  }

  /** The producer sends a job or closes the channel; worker `w` takes a job, delivers its result,
      or leaves because the channel is closed and empty; the producer collects when all have left. */
  datatype Label = Send | Close | Take(w: nat) | Deliver(w: nat) | Leave(w: nat) | Collect

  predicate AllGone(p: Pool) { forall i | 0 <= i < |p.workers| :: p.workers[i].Gone? }

  /** Whether the step is the next statement of its goroutine, channel capacity aside. */
  predicate Due(p: Pool, l: Label)
  {
    match l
    case Send => p.sent < p.total
    case Close => p.sent == p.total && !p.closed
    case Take(w) => w < |p.workers| && p.workers[w].Idle? && p.jobs != []
    case Deliver(w) => w < |p.workers| && p.workers[w].Holding?
    case Leave(w) => w < |p.workers| && p.workers[w].Idle? && p.closed && p.jobs == []
    case Collect => p.closed && AllGone(p) && !p.collected
  }

  /** Whether a due step would block on a full channel. */
  predicate Blocks(p: Pool, l: Label)
  {
    match l
    case Send => |p.jobs| >= p.total
    case Deliver(_) => |p.results| >= p.total
    case _ => false
  }

  function Step(p: Pool, l: Label): Pool
    requires Due(p, l)
  {
    match l
    case Send => p.(jobs := p.jobs + [p.sent], sent := p.sent + 1)
    case Close => p.(closed := true)
    case Take(w) => p.(jobs := p.jobs[1..], workers := p.workers[w := Holding(p.jobs[0])])
    case Deliver(w) => p.(results := p.results + [p.workers[w].job], workers := p.workers[w := Idle])
    case Leave(w) => p.(workers := p.workers[w := Gone])
    case Collect => p.(collected := true)
  }

  function Range(n: nat): seq<nat> { seq(n, i => i) }

  function Is(j: nat): nat -> int { (k: nat) => if k == j then 1 else 0 }

  function Holds(j: nat): Worker -> int { (w: Worker) => if w.Holding? && w.job == j then 1 else 0 }

  function Occupied(): Worker -> int { (w: Worker) => if w.Holding? then 1 else 0 }

  /** In how many places job `j` is: queued, in a worker's hands, or delivered. */
  function Places(p: Pool, j: nat): int
  {
    Sum(p.jobs, Is(j)) + Sum(p.workers, Holds(j)) + Sum(p.results, Is(j))
  }

  function Load(p: Pool): int { |p.jobs| + Sum(p.workers, Occupied()) + |p.results| }

  /** Every job sent is in exactly one place, and no other job is anywhere. */
  ghost predicate Accounted(p: Pool)
  {
    && (forall j: nat :: Places(p, j) == if j < p.sent then 1 else 0)
    && Load(p) == p.sent
  }

  /** No worker leaves before the channel is closed and drained, nor are results collected before
      every worker has left. */
  predicate Orderly(p: Pool)
  {
    && p.sent <= p.total
    && (p.closed ==> p.sent == p.total)
    && (!p.closed || p.jobs != [] ==> forall i | 0 <= i < |p.workers| :: !p.workers[i].Gone?)
    && (p.collected ==> p.closed && AllGone(p))
  }

  lemma {:induction false} IdleHands(ws: seq<Worker>, j: nat)
    requires forall i | 0 <= i < |ws| :: !ws[i].Holding?
    ensures Sum(ws, Holds(j)) == 0 && Sum(ws, Occupied()) == 0
  {
    if ws != [] {
      IdleHands(ws[..|ws| - 1], j);
    }
  }

  lemma LaunchIsAccounted(total: nat, workers: nat)
    ensures Accounted(Launch(total, workers)) && Orderly(Launch(total, workers))
  {
    var p := Launch(total, workers);
    IdleHands(p.workers, 0);
    forall j: nat ensures Places(p, j) == 0 {
      IdleHands(p.workers, j);
    }
  }

  lemma SumPop(s: seq<nat>, f: nat -> int)
    requires s != []
    ensures Sum(s, f) == f(s[0]) + Sum(s[1..], f)
  {
    assert s == [s[0]] + s[1..];
    SumConcat([s[0]], s[1..], f);
    SumAppend([], s[0], f);
    assert [] + [s[0]] == [s[0]];
  }

  /** A step moves jobs from place to place; only sending puts one more into the pool. */
  lemma StepMoves(p: Pool, l: Label, j: nat)
    requires Due(p, l)
    ensures Places(Step(p, l), j) == Places(p, j) + if l.Send? && p.sent == j then 1 else 0
  {
    match l
    case Send => SumAppend(p.jobs, p.sent, Is(j));
    case Take(w) =>
      SumPop(p.jobs, Is(j));
      SumUpdate(p.workers, w, Holding(p.jobs[0]), Holds(j));
    case Deliver(w) =>
      SumAppend(p.results, p.workers[w].job, Is(j));
      SumUpdate(p.workers, w, Idle, Holds(j));
    case Leave(w) => SumUpdate(p.workers, w, Gone, Holds(j));
    case _ =>
  }

  lemma StepLoads(p: Pool, l: Label)
    requires Due(p, l)
    ensures Load(Step(p, l)) == Load(p) + if l.Send? then 1 else 0
  {
    match l
    case Take(w) => SumUpdate(p.workers, w, Holding(p.jobs[0]), Occupied());
    case Deliver(w) => SumUpdate(p.workers, w, Idle, Occupied());
    case Leave(w) => SumUpdate(p.workers, w, Gone, Occupied());
    case _ =>
  }

  lemma StepKeepsAccount(p: Pool, l: Label)
    requires Accounted(p) && Due(p, l)
    ensures Accounted(Step(p, l))
  {
    StepLoads(p, l);
    forall j: nat ensures Places(Step(p, l), j) == if j < Step(p, l).sent then 1 else 0 {
      StepMoves(p, l, j);
    }
  }

  lemma StepStaysOrderly(p: Pool, l: Label)
    requires Orderly(p) && Due(p, l)
    ensures Orderly(Step(p, l))
  {
  }

  /** No send ever blocks: whenever one is due, its channel has room. */
  lemma SendsNeverBlock(p: Pool, l: Label)
    requires Accounted(p) && Orderly(p) && Due(p, l)
    ensures !Blocks(p, l)
  {
    SumNonNegative(p.workers, Occupied());
    if l.Deliver? {
      SumAtLeast(p.workers, l.w, Occupied());
    }
  }

  // ---- termination ----

  function Busy(w: Worker): int { if w.Holding? then 3 else if w.Idle? then 1 else 0 }
  function BusyOf(): Worker -> int { (w: Worker) => Busy(w) }

  /** How many steps are left at most. */
  function Remaining(p: Pool): int
  {
    4 * (p.total - p.sent) + 3 * |p.jobs| + Sum(p.workers, BusyOf())
    + (if p.closed then 0 else 1) + (if p.collected then 0 else 1)
  }

  lemma StepsRunOut(p: Pool, l: Label)
    requires Due(p, l)
    ensures Remaining(Step(p, l)) < Remaining(p)
  {
    match l
    case Take(w) => SumUpdate(p.workers, w, Holding(p.jobs[0]), BusyOf());
    case Deliver(w) => SumUpdate(p.workers, w, Idle, BusyOf());
    case Leave(w) => SumUpdate(p.workers, w, Gone, BusyOf());
    case _ =>
  }

  /** A job in a worker's hands was sent. */
  lemma HeldJobWasSent(p: Pool, w: nat)
    requires Accounted(p) && Orderly(p) && w < |p.workers| && p.workers[w].Holding?
    ensures p.workers[w].job < p.total
  {
    var job := p.workers[w].job;
    SumAtLeast(p.workers, w, Holds(job));
    SumNonNegative(p.jobs, Is(job));
    SumNonNegative(p.results, Is(job));
    assert Places(p, job) >= 1;
  }

  /** Every step keeps the account and the order, and uses up part of what remains. */
  lemma Advance(p: Pool, l: Label)
    requires Accounted(p) && Orderly(p) && Due(p, l)
    ensures Accounted(Step(p, l)) && Orderly(Step(p, l))
    ensures Step(p, l).total == p.total && |Step(p, l).workers| == |p.workers|
    ensures 0 <= Remaining(Step(p, l)) < Remaining(p)
    ensures l.Deliver? ==> p.workers[l.w].job < p.total
  {
    StepKeepsAccount(p, l);
    StepStaysOrderly(p, l);
    StepsRunOut(p, l);
    SumNonNegative(Step(p, l).workers, BusyOf());
    if l.Deliver? {
      HeldJobWasSent(p, l.w);
    }
  }

  /** Until the results are collected some goroutine can move: there is no deadlock. */
  lemma SomeStepIsDue(p: Pool) returns (l: Label)
    requires Orderly(p) && !p.collected && p.workers != []
    ensures Due(p, l)
  {
    if p.sent < p.total {
      l := Send;
    } else if !p.closed {
      l := Close;
    } else if w: nat :| w < |p.workers| && p.workers[w].Holding? {
      l := Deliver(w);
    } else if p.jobs != [] {
      l := Take(0);
    } else if w: nat :| w < |p.workers| && p.workers[w].Idle? {
      l := Leave(w);
    } else {
      l := Collect;
    }
  }

  predicate Legal(p: Pool, schedule: seq<Label>)
    decreases |schedule|
  {
    schedule != [] ==> Due(p, schedule[0]) && !Blocks(p, schedule[0]) && Legal(Step(p, schedule[0]), schedule[1..])
  }

  function Run(p: Pool, schedule: seq<Label>): Pool
    requires Legal(p, schedule)
    decreases |schedule|
  {
    if schedule == [] then p else Run(Step(p, schedule[0]), schedule[1..])
  }

  lemma {:induction false} RunKeepsAccount(p: Pool, schedule: seq<Label>)
    requires Accounted(p) && Orderly(p) && Legal(p, schedule)
    ensures Accounted(Run(p, schedule)) && Orderly(Run(p, schedule)) && Run(p, schedule).total == p.total
    ensures 0 <= Remaining(Run(p, schedule)) <= Remaining(p) - |schedule|
    decreases |schedule|
  {
    SumNonNegative(p.workers, BusyOf());
    if schedule != [] {
      Advance(p, schedule[0]);
      RunKeepsAccount(Step(p, schedule[0]), schedule[1..]);
    }
  }

  /** Whatever the interleaving, the pool terminates within a bound fixed at launch, no step that is
      due ever blocks, and whenever it has not finished some step is due. */
  lemma PoolTerminates(total: nat, workers: nat, schedule: seq<Label>)
    requires workers > 0 && Legal(Launch(total, workers), schedule)
    ensures |schedule| <= 4 * total + workers + 2
    ensures var p := Run(Launch(total, workers), schedule);
            && (forall l | Due(p, l) :: !Blocks(p, l))
            && (!p.collected ==> exists l :: Due(p, l))
  {
    var p0 := Launch(total, workers);
    LaunchIsAccounted(total, workers);
    RunKeepsAccount(p0, schedule);
    IdleBusy(workers);
    var p := Run(p0, schedule);
    if !p.collected {
      RunKeepsWorkers(p0, schedule);
      var l := SomeStepIsDue(p);
    }
    forall l | Due(p, l) ensures !Blocks(p, l) {
      SendsNeverBlock(p, l);
    }
  }

  lemma {:induction false} IdleBusy(workers: nat)
    ensures Sum(seq(workers, _ => Idle), BusyOf()) == workers
  {
    if workers > 0 {
      assert seq(workers, _ => Idle)[..workers - 1] == seq(workers - 1, _ => Idle);
      IdleBusy(workers - 1);
    }
  }

  lemma {:induction false} RunKeepsWorkers(p: Pool, schedule: seq<Label>)
    requires Legal(p, schedule)
    ensures |Run(p, schedule).workers| == |p.workers|
    decreases |schedule|
  {
    if schedule != [] {
      RunKeepsWorkers(Step(p, schedule[0]), schedule[1..]);
    }
  }

  lemma {:induction false} MultiplicityIsSum(s: seq<nat>, j: nat)
    ensures multiset(s)[j] == Sum(s, Is(j))
  {
    if s != [] {
      var n := |s| - 1;
      MultiplicityIsSum(s[..n], j);
      assert s == s[..n] + [s[n]];
    }
  }

  lemma {:induction false} RangeHasEachOnce(n: nat, j: nat)
    ensures Sum(Range(n), Is(j)) == if j < n then 1 else 0
  {
    if n > 0 {
      RangeHasEachOnce(n - 1, j);
      assert Range(n)[..n - 1] == Range(n - 1);
    }
  }

  lemma CollectedIsEverything(p: Pool)
    requires Accounted(p) && Orderly(p) && p.collected && p.workers != []
    ensures multiset(p.results) == multiset(Range(p.total))
  {
    assert p.workers[0].Gone?;
    assert p.jobs == [];
    forall j: nat ensures multiset(p.results)[j] == multiset(Range(p.total))[j] {
      assert Places(p, j) == if j < p.total then 1 else 0;
      IdleHands(p.workers, j);
      MultiplicityIsSum(p.results, j);
      MultiplicityIsSum(Range(p.total), j);
      RangeHasEachOnce(p.total, j);
    }
  }

  /** When the results are collected they hold every job exactly once, in whatever order. */
  lemma OneResultPerJob(total: nat, workers: nat, schedule: seq<Label>)
    requires workers > 0 && Legal(Launch(total, workers), schedule)
    requires Run(Launch(total, workers), schedule).collected
    ensures multiset(Run(Launch(total, workers), schedule).results) == multiset(Range(total))
  {
    LaunchIsAccounted(total, workers);
    RunKeepsAccount(Launch(total, workers), schedule);
    RunKeepsWorkers(Launch(total, workers), schedule);
    CollectedIsEverything(Run(Launch(total, workers), schedule));
  }
}
