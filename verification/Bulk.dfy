/** Bulk transfers: choosing between native calls and concurrent singles, splitting a large batch,
    and what each transfer is finally reported as. */
module Bulk {
  import opened Common
  import opened BatchResults
  import opened WorkerPool

  /** An amount is a decimal number of naira, absent when its text cannot be read. */
  datatype Request = Request(reference: string, amount: Option<real>)

  datatype SingleReply = Errored(message: string) | Done(result: Result)
  datatype BulkReply = CallFailed(message: string) | Accepted(results: seq<Result>)

  /** The default provider: its batch limits when it has native bulk support, and what it answers
      to a bulk call and to the single call for position `i` of a batch. */
  datatype Provider = Provider(
    native: bool, minBatch: nat, maxBatch: nat,
    bulk: (string, seq<Request>) -> BulkReply,
    single: (string, nat, Request) -> SingleReply)

  datatype Submission = Native(ref: string, transfers: seq<Request>) | Pooled(ref: string, transfers: seq<Request>)

  // ---- concurrent singles ----

  /** What a worker puts on the result channel. */
  function WorkerResult(t: Request, reply: SingleReply): Result
  {
    match reply
    case Errored(m) => Result(t.reference, false, "failed", "", m, "")
    case Done(r) => r
  }

  /** The results of a sequential pass in request order. */
  function Singles(p: Provider, ref: string, ts: seq<Request>): seq<Result>
  {
    seq(|ts|, i requires 0 <= i < |ts| => WorkerResult(ts[i], p.single(ref, i, ts[i])))
  }

  predicate Within(order: seq<nat>, n: nat) { forall i | 0 <= i < |order| :: order[i] < n }

  function Pick(all: seq<Result>, order: seq<nat>): (picked: seq<Result>)
    requires Within(order, |all|)
  {
    seq(|order|, i requires 0 <= i < |order| => all[order[i]])
  }

  lemma PickTakeOut(all: seq<Result>, order: seq<nat>, i: nat)
    requires Within(order, |all|) && i < |order|
    ensures var rest := order[..i] + order[i + 1..];
            Within(rest, |all|) && multiset(Pick(all, order)) == multiset(Pick(all, rest)) + multiset{all[order[i]]}
  {
    TakeOut(Pick(all, order), i);
    assert Pick(all, order)[..i] + Pick(all, order)[i + 1..] == Pick(all, order[..i] + order[i + 1..]);
  }

  /** Taking the same positions in two orders yields the same results. */
  lemma {:induction false} PickShuffled(all: seq<Result>, a: seq<nat>, b: seq<nat>)
    requires Within(a, |all|) && Within(b, |all|) && multiset(a) == multiset(b)
    ensures multiset(Pick(all, a)) == multiset(Pick(all, b))
    decreases |a|
  {
    assert |a| == |multiset(a)| == |multiset(b)| == |b|;
    if a != [] {
      var n := |a| - 1;
      var x := a[n];
      assert x in multiset(b);
      var i :| 0 <= i < |b| && b[i] == x;
      var rest := b[..i] + b[i + 1..];
      TakeOut(a, n);
      TakeOut(b, i);
      assert a[..n] + a[n + 1..] == a[..n];
      Cancel(multiset(a[..n]), multiset(rest), multiset{x});
      PickShuffled(all, a[..n], rest);
      PickTakeOut(all, a, n);
      PickTakeOut(all, b, i);
    }
  }

  lemma Cancel(a: multiset<nat>, b: multiset<nat>, c: multiset<nat>)
    requires a + c == b + c
    ensures a == b
  {
    assert a == (a + c) - c && b == (b + c) - c;
  }

  lemma TakeOut<T>(s: seq<T>, i: nat)
    requires i < |s|
    ensures multiset(s) == multiset(s[..i] + s[i + 1..]) + multiset{s[i]}
  {
    assert s == s[..i] + [s[i]] + s[i + 1..];
  }

  lemma PickAll(all: seq<Result>)
    ensures Pick(all, Range(|all|)) == all
  {
  }

  /** A delivery adds the result of the job delivered; no other step adds one. */
  lemma PickAfter(all: seq<Result>, pool: Pool, step: Label)
    requires Due(pool, step) && Within(pool.results, |all|)
    requires step.Deliver? ==> pool.workers[step.w].job < |all|
    ensures Within(Step(pool, step).results, |all|)
    ensures Pick(all, Step(pool, step).results) ==
      Pick(all, pool.results) + if step.Deliver? then [all[pool.workers[step.w].job]] else []
  {
  }

  /** executeBulkAsConcurrentSingles: the producer and five workers, scheduled arbitrarily. */
  method ExecuteBulkAsConcurrentSingles(p: Provider, ref: string, ts: seq<Request>) returns (results: seq<Result>)
    ensures multiset(results) == multiset(Singles(p, ref, ts))
  {
    ghost var all := Singles(p, ref, ts);
    var pool := Launch(|ts|, WORKERS);
    results := [];
    LaunchIsAccounted(|ts|, WORKERS);
    while !pool.collected
      invariant Accounted(pool) && Orderly(pool) && pool.workers != [] && pool.total == |ts|
      invariant Within(pool.results, |all|) && results == Pick(all, pool.results)
      decreases Remaining(pool)
    {
      ghost var due := SomeStepIsDue(pool);
      var step :| Due(pool, step);
      Advance(pool, step);
      PickAfter(all, pool, step);
      if step.Deliver? {
        var job := pool.workers[step.w].job;
        results := results + [WorkerResult(ts[job], p.single(ref, job, ts[job]))];
      }
      pool := Step(pool, step);
    }
    CollectedIsEverything(pool);
    PickAll(all);
    PickShuffled(all, pool.results, Range(|ts|));
  }

  // ---- splitting ----

  function Digit(d: nat): char requires d < 10 { '0' + d as char }

  function Decimal(n: nat): (s: string)
    ensures s != []
  {
    if n < 10 then [Digit(n)] else Decimal(n / 10) + [Digit(n % 10)]
  }

  lemma {:induction false} DecimalIsInjective(m: nat, n: nat)
    requires Decimal(m) == Decimal(n)
    ensures m == n
    decreases m
  {
    var a, b := Decimal(m), Decimal(n);
    assert a[|a| - 1] == b[|b| - 1];
    if m >= 10 && n >= 10 {
      assert a[..|a| - 1] == Decimal(m / 10) && b[..|b| - 1] == Decimal(n / 10);
      DecimalIsInjective(m / 10, n / 10);
    }
  }

  predicate IsDigit(c: char) { '0' <= c <= '9' }

  /** The number a string of digits stands for. */
  function Number(s: string): int
    requires forall i | 0 <= i < |s| :: IsDigit(s[i])
  {
    if s == [] then 0 else 10 * Number(s[..|s| - 1]) + (s[|s| - 1] as int - '0' as int)
  }

  /** Printing a number in decimal and reading it back gives the number; nothing is padded. */
  lemma {:induction false} DecimalReadsBack(n: nat)
    ensures forall i | 0 <= i < |Decimal(n)| :: IsDigit(Decimal(n)[i])
    ensures Number(Decimal(n)) == n
    ensures if n == 0 then Decimal(n) == "0" else Decimal(n)[0] != '0'
  {
    if n >= 10 {
      DecimalReadsBack(n / 10);
      var front := Decimal(n / 10);
      assert Decimal(n)[..|Decimal(n)| - 1] == front && Decimal(n)[0] == front[0];
    } else {
      assert Decimal(n)[..0] == [];
    }
  }

  function ChunkRef(batch: string, number: nat): string { batch + "-chunk-" + Decimal(number) }

  lemma ChunkRefsAreDistinct(batch: string, m: nat, n: nat)
    requires ChunkRef(batch, m) == ChunkRef(batch, n)
    ensures m == n
  {
    var k := |batch + "-chunk-"|;
    assert ChunkRef(batch, m)[k..] == Decimal(m) && ChunkRef(batch, n)[k..] == Decimal(n);
    DecimalIsInjective(m, n);
  }

  /** A chunk below the native minimum goes to the pool. */
  function Chunk(p: Provider, ref: string, ts: seq<Request>): Submission
  {
    if |ts| < p.minBatch then Pooled(ref, ts) else Native(ref, ts)
  }

  /** The submissions of a batch that is split, from chunk `number` on. */
  function Split(p: Provider, batch: string, number: nat, ts: seq<Request>): seq<Submission>
    requires p.maxBatch > 0
    decreases |ts|
  {
    if ts == [] then []
    else
      var size := Min(|ts|, p.maxBatch);
      [Chunk(p, ChunkRef(batch, number), ts[..size])] + Split(p, batch, number + 1, ts[size..])
  }

  /** What each submission contributes: nothing when a native call fails, and the results of the
      pool in any order. */
  ghost predicate Carried(p: Provider, s: Submission, part: seq<Result>)
  {
    match s
    case Native(ref, ts) => part == (if p.bulk(ref, ts).Accepted? then p.bulk(ref, ts).results else [])
    case Pooled(ref, ts) => multiset(part) == multiset(Singles(p, ref, ts))
  }

  ghost predicate AllCarried(p: Provider, plan: seq<Submission>, parts: seq<seq<Result>>)
  {
    |parts| == |plan| && forall k | 0 <= k < |plan| :: Carried(p, plan[k], parts[k])
  }

  function Flat<T>(parts: seq<seq<T>>): seq<T>
  {
    if parts == [] then [] else Flat(parts[..|parts| - 1]) + parts[|parts| - 1]
  }

  function ErrorOf(p: Provider, s: Submission): Option<string>
  {
    match s
    case Pooled(_, _) => None
    case Native(ref, ts) => if p.bulk(ref, ts).CallFailed? then Some(p.bulk(ref, ts).message) else None
  }

  /** The message of the first native call that failed. */
  function FirstError(p: Provider, plan: seq<Submission>): Option<string>
  {
    if plan == [] then None
    else
      var earlier := FirstError(p, plan[..|plan| - 1]);
      if earlier.Some? then earlier else ErrorOf(p, plan[|plan| - 1])
  }

  /** The error of a split batch: that of the earliest native call that failed, and none if none did. */
  lemma {:induction false} FirstErrorIs(p: Provider, plan: seq<Submission>) returns (k: nat)
    ensures if k < |plan|
            then && plan[k].Native? && p.bulk(plan[k].ref, plan[k].transfers).CallFailed?
                 && FirstError(p, plan) == Some(p.bulk(plan[k].ref, plan[k].transfers).message)
            else FirstError(p, plan) == None
    ensures forall j | 0 <= j < k && j < |plan| :: plan[j].Native? ==> !p.bulk(plan[j].ref, plan[j].transfers).CallFailed?
  {
    k := 0;
    if plan != [] {
      var n := |plan| - 1;
      k := FirstErrorIs(p, plan[..n]);
      assert forall j | 0 <= j < n :: plan[..n][j] == plan[j];
      if k >= n {
        k := if ErrorOf(p, plan[n]).Some? then n else |plan|;
      }
    }
  }

  lemma PlanGrows(p: Provider, plan: seq<Submission>, parts: seq<seq<Result>>, s: Submission, part: seq<Result>)
    requires AllCarried(p, plan, parts) && Carried(p, s, part)
    ensures AllCarried(p, plan + [s], parts + [part])
    ensures Flat(parts + [part]) == Flat(parts) + part
    ensures var e := FirstError(p, plan); FirstError(p, plan + [s]) == if e.Some? then e else ErrorOf(p, s)
  {
    assert (plan + [s])[..|plan|] == plan && (parts + [part])[..|parts|] == parts;
  }

  method SubmitChunk(p: Provider, chunkRef: string, chunk: seq<Request>)
    returns (part: seq<Result>, error: Option<string>)
    ensures Carried(p, Chunk(p, chunkRef, chunk), part)
    ensures error == ErrorOf(p, Chunk(p, chunkRef, chunk))
  {
    if |chunk| < p.minBatch {
      part := ExecuteBulkAsConcurrentSingles(p, chunkRef, chunk);
      error := None;
    } else {
      match p.bulk(chunkRef, chunk) {
        case CallFailed(m) => part, error := [], Some(m);
        case Accepted(rs) => part, error := rs, None;
      }
    }
  }

  /** Where the splitting loop stands after `k` chunks. */
  datatype Progress = Progress(
    plan: seq<Submission>, parts: seq<seq<Result>>, results: seq<Result>, firstError: Option<string>)

  /** Its totals are those of the submissions made so far. */
  ghost predicate Kept(p: Provider, g: Progress)
  {
    AllCarried(p, g.plan, g.parts) && g.results == Flat(g.parts) && g.firstError == FirstError(p, g.plan)
  }

  function Noted(g: Progress, s: Submission, part: seq<Result>, error: Option<string>): Progress
  {
    Progress(g.plan + [s], g.parts + [part], g.results + part, if g.firstError == None then error else g.firstError)
  }

  lemma NotedStaysKept(p: Provider, g: Progress, s: Submission, part: seq<Result>)
    requires Kept(p, g) && Carried(p, s, part)
    ensures Kept(p, Noted(g, s, part, ErrorOf(p, s)))
  {
    PlanGrows(p, g.plan, g.parts, s, part);
  }

  /** One round of the splitting loop: cut the chunk at `i` and submit it. */
  method SubmitNext(p: Provider, batch: string, ts: seq<Request>, i: nat, ghost k: nat, ghost g: Progress)
    returns (part: seq<Result>, error: Option<string>, ghost next: Progress)
    requires p.maxBatch > 0 && i < |ts| && At(i, p.maxBatch, k)
    requires Pending(p, batch, ts, i, k, g.plan) && Kept(p, g)
    ensures At(i + p.maxBatch, p.maxBatch, k + 1)
    ensures Pending(p, batch, ts, i + p.maxBatch, k + 1, next.plan) && Kept(p, next)
    ensures next.results == g.results + part && next.firstError == if g.firstError == None then error else g.firstError
  {
    var end := i + p.maxBatch;
    if end > |ts| {
      end := |ts|;
    }
    var chunk := ts[i..end];
    Quotient(i, p.maxBatch, k);
    var chunkRef := ChunkRef(batch, i / p.maxBatch + 1);
    part, error := SubmitChunk(p, chunkRef, chunk);
    assert chunkRef == ChunkRef(batch, k + 1);
    PendingShrinks(p, batch, ts, i, k, g.plan);
    assert Pending(p, batch, ts, i + p.maxBatch, k + 1, g.plan + [Chunk(p, chunkRef, chunk)]);
    NotedStaysKept(p, g, Chunk(p, chunkRef, chunk), part);
    next := Noted(g, Chunk(p, chunkRef, chunk), part, error);
  }

  /** splitAndProcessBulk: a failed chunk is noted and passed over. */
  method SplitAndProcessBulk(p: Provider, batch: string, ts: seq<Request>)
    returns (results: seq<Result>, firstError: Option<string>, ghost g: Progress)
    requires p.maxBatch > 0
    ensures firstError == FirstError(p, Split(p, batch, 1, ts))
    ensures g.plan == Split(p, batch, 1, ts)
    ensures Kept(p, g) && g.results == results && g.firstError == firstError
  {
    results, firstError, g := [], None, Progress([], [], [], None);
    var i := 0;
    ghost var k := 0;
    while i < |ts|
      invariant At(i, p.maxBatch, k)
      invariant Pending(p, batch, ts, i, k, g.plan)
      invariant Kept(p, g) && g.results == results && g.firstError == firstError
    {
      var part, error;
      part, error, g := SubmitNext(p, batch, ts, i, k, g);
      if firstError == None {
        firstError := error;
      }
      results := results + part;
      i, k := i + p.maxBatch, k + 1;
    }
    NothingPending(p, batch, ts, i, k, g.plan);
  }

  /** The submissions made and those still to come are the whole split. */
  predicate Pending(p: Provider, batch: string, ts: seq<Request>, i: nat, k: nat, made: seq<Submission>)
    requires p.maxBatch > 0
  {
    made + Split(p, batch, k + 1, ts[Min(i, |ts|)..]) == Split(p, batch, 1, ts)
  }

  lemma NothingPending(p: Provider, batch: string, ts: seq<Request>, i: nat, k: nat, made: seq<Submission>)
    requires p.maxBatch > 0 && i >= |ts| && Pending(p, batch, ts, i, k, made)
    ensures made == Split(p, batch, 1, ts)
  {
  }

  lemma PendingShrinks(p: Provider, batch: string, ts: seq<Request>, i: nat, k: nat, made: seq<Submission>)
    requires p.maxBatch > 0 && i < |ts| && Pending(p, batch, ts, i, k, made)
    ensures var end := Min(i + p.maxBatch, |ts|);
            Pending(p, batch, ts, i + p.maxBatch, k + 1, made + [Chunk(p, ChunkRef(batch, k + 1), ts[i..end])])
  {
    var end := Min(i + p.maxBatch, |ts|);
    var s := Chunk(p, ChunkRef(batch, k + 1), ts[i..end]);
    SplitUnfolds(p, batch, k + 1, ts, i);
    assert (made + [s]) + Split(p, batch, k + 2, ts[end..]) == made + ([s] + Split(p, batch, k + 2, ts[end..]));
  }

  lemma SplitUnfolds(p: Provider, batch: string, number: nat, ts: seq<Request>, i: nat)
    requires p.maxBatch > 0 && i < |ts|
    ensures var end := Min(i + p.maxBatch, |ts|);
            Split(p, batch, number, ts[i..]) ==
            [Chunk(p, ChunkRef(batch, number), ts[i..end])] + Split(p, batch, number + 1, ts[end..])
  {
    var end := Min(i + p.maxBatch, |ts|);
    assert ts[i..][..end - i] == ts[i..end] && ts[i..][end - i..] == ts[end..];
  }

  /** The loop stands at the start of chunk `k`. */
  predicate At(i: nat, d: nat, k: nat) { i == k * d }

  lemma Quotient(i: nat, d: nat, k: nat)
    requires d > 0 && At(i, d, k)
    ensures i / d == k && At(i + d, d, k + 1)
  {
    Euclid(i, d, k, 0);
  }

  lemma Euclid(x: nat, d: nat, q: nat, r: nat)
    requires r < d && x == q * d + r
    ensures x / d == q && x % d == r
  {
    var k := x / d;
    assert (q - k) * d == x % d - r;
    MultipleIsLarge(q - k, d);
  }

  lemma MultipleIsLarge(m: int, d: nat)
    ensures m >= 1 ==> m * d >= d
    ensures m <= -1 ==> m * d + d <= 0
  {
    if m >= 1 {
      assert m * d == d + (m - 1) * d;
    } else if m <= -1 {
      assert m * d + d == (m + 1) * d;
    }
  }

  // ---- the whole plan ----

  /** The submissions a batch is turned into. */
  function PlanOf(p: Provider, batch: string, ts: seq<Request>): seq<Submission>
    requires p.native ==> p.maxBatch > 0
  {
    if !p.native || |ts| < p.minBatch then [Pooled(batch, ts)]
    else if |ts| <= p.maxBatch then [Native(batch, ts)]
    else Split(p, batch, 1, ts)
  }

  datatype BulkOutcome = Refused(message: string) | Gathered(results: seq<Result>)

  /** InitiateBulkTransfer: an error comes back only from a single native call; a split batch
      always yields a result, however many of its chunks failed. */
  method InitiateBulkTransfer(p: Provider, batch: string, ts: seq<Request>)
    returns (out: BulkOutcome, ghost parts: seq<seq<Result>>)
    requires p.native ==> p.maxBatch > 0
    ensures out.Refused? <==> p.native && p.minBatch <= |ts| <= p.maxBatch && p.bulk(batch, ts).CallFailed?
    ensures out.Gathered? ==> AllCarried(p, PlanOf(p, batch, ts), parts) && out.results == Flat(parts)
  {
    parts := [];
    if !p.native || |ts| < p.minBatch {
      var results := ExecuteBulkAsConcurrentSingles(p, batch, ts);
      out, parts := Gathered(results), [results];
      FlatOfOne(results);
    } else if |ts| <= p.maxBatch {
      match p.bulk(batch, ts) {
        case CallFailed(m) => out := Refused(m);
        case Accepted(rs) =>
          out, parts := Gathered(rs), [rs];
          FlatOfOne(rs);
      }
    } else {
      var results, firstError, g := SplitAndProcessBulk(p, batch, ts);
      out, parts := Gathered(results), g.parts;
    }
  }

  lemma FlatOfOne<T>(x: seq<T>)
    ensures Flat([x]) == x
  {
    assert [x][..0] == [];
  }

  lemma {:induction false} FlatPrepend<T>(x: seq<T>, xs: seq<seq<T>>)
    ensures Flat([x] + xs) == x + Flat(xs)
  {
    if xs == [] {
      assert [x] + xs == [x];
      FlatOfOne(x);
    } else {
      var n := |xs| - 1;
      assert ([x] + xs)[..n + 1] == [x] + xs[..n];
      FlatPrepend(x, xs[..n]);
    }
  }

  function TransfersOf(plan: seq<Submission>): seq<seq<Request>>
  {
    seq(|plan|, k requires 0 <= k < |plan| => plan[k].transfers)
  }

  lemma TransfersPrepend(s: Submission, plan: seq<Submission>)
    ensures TransfersOf([s] + plan) == [s.transfers] + TransfersOf(plan)
  {
  }

  lemma {:induction false} SplitCovers(p: Provider, batch: string, number: nat, ts: seq<Request>)
    requires p.maxBatch > 0
    ensures Flat(TransfersOf(Split(p, batch, number, ts))) == ts
    decreases |ts|
  {
    if ts != [] {
      var size := Min(|ts|, p.maxBatch);
      var rest := Split(p, batch, number + 1, ts[size..]);
      SplitCovers(p, batch, number + 1, ts[size..]);
      var first := Chunk(p, ChunkRef(batch, number), ts[..size]);
      TransfersPrepend(first, rest);
      FlatPrepend(ts[..size], TransfersOf(rest));
    }
  }

  /** How a batch is sent: with no native support, or below its minimum, by the pool; within its limits in
      one native call; and above its maximum in chunks numbered from one. */
  lemma PlanByLimits(p: Provider, batch: string, ts: seq<Request>)
    requires p.native ==> 0 < p.maxBatch && p.minBatch <= p.maxBatch
    ensures !p.native || |ts| < p.minBatch ==> PlanOf(p, batch, ts) == [Pooled(batch, ts)]
    ensures p.native && p.minBatch <= |ts| <= p.maxBatch ==> PlanOf(p, batch, ts) == [Native(batch, ts)]
    ensures p.native && |ts| > p.maxBatch ==> PlanOf(p, batch, ts) == Split(p, batch, 1, ts)
  {
  }

  /** Every transfer of the batch is in exactly one submission, and in order. */
  lemma PlanCoversBatch(p: Provider, batch: string, ts: seq<Request>)
    requires p.native ==> p.maxBatch > 0
    ensures Flat(TransfersOf(PlanOf(p, batch, ts))) == ts
  {
    if p.native && |ts| >= p.minBatch && |ts| > p.maxBatch {
      SplitCovers(p, batch, 1, ts);
    } else {
      assert TransfersOf(PlanOf(p, batch, ts)) == [ts];
      FlatOfOne(ts);
    }
  }

  /** A split batch makes ceil(n / max) submissions. */
  lemma {:induction false} SplitCount(p: Provider, batch: string, number: nat, ts: seq<Request>)
    requires p.maxBatch > 0 && ts != []
    ensures var count := |Split(p, batch, number, ts)|; (count - 1) * p.maxBatch < |ts| <= count * p.maxBatch
    decreases |ts|
  {
    var rest := ts[Min(|ts|, p.maxBatch)..];
    var count, less := |Split(p, batch, number, ts)|, |Split(p, batch, number + 1, rest)|;
    assert count == 1 + less;
    assert (count - 1) * p.maxBatch == less * p.maxBatch == count * p.maxBatch - p.maxBatch;
    if rest != [] {
      SplitCount(p, batch, number + 1, rest);
      assert (less - 1) * p.maxBatch == less * p.maxBatch - p.maxBatch;
      assert |ts| == |rest| + p.maxBatch;
    } else {
      assert less == 0 && less * p.maxBatch == 0;
    }
  }

  /** All but the last submission are full and the last is not empty; a native call carries between
      min and max transfers, and only the last submission can go to the pool, when it is below min;
      references are the numbered chunk references. */
  lemma {:induction false} SplitShape(p: Provider, batch: string, number: nat, ts: seq<Request>, k: nat)
    requires p.maxBatch > 0 && p.minBatch <= p.maxBatch && k < |Split(p, batch, number, ts)|
    ensures var plan := Split(p, batch, number, ts);
            var size := |plan[k].transfers|;
            && plan[k].ref == ChunkRef(batch, number + k)
            && (if k < |plan| - 1 then size == p.maxBatch else 0 < size <= p.maxBatch)
            && (plan[k].Native? ==> p.minBatch <= size <= p.maxBatch)
            && (plan[k].Pooled? ==> k == |plan| - 1 && size < p.minBatch)
    decreases |ts|
  {
    var size := Min(|ts|, p.maxBatch);
    var rest := Split(p, batch, number + 1, ts[size..]);
    assert Split(p, batch, number, ts) == [Chunk(p, ChunkRef(batch, number), ts[..size])] + rest;
    if k > 0 {
      SplitShape(p, batch, number + 1, ts[size..], k - 1);
    }
  }

  /** No two chunks of a batch share a reference. */
  lemma SubmissionsHaveDistinctReferences(p: Provider, batch: string, ts: seq<Request>, i: nat, j: nat)
    requires p.maxBatch > 0 && p.minBatch <= p.maxBatch
    requires i < j < |Split(p, batch, 1, ts)|
    ensures Split(p, batch, 1, ts)[i].ref != Split(p, batch, 1, ts)[j].ref
  {
    SplitShape(p, batch, 1, ts, i);
    SplitShape(p, batch, 1, ts, j);
    if ChunkRef(batch, 1 + i) == ChunkRef(batch, 1 + j) {
      ChunkRefsAreDistinct(batch, 1 + i, 1 + j);
    }
  }

  // ---- what each transfer is reported as ----

  function References(ts: seq<Request>): seq<string>
  {
    seq(|ts|, i requires 0 <= i < |ts| => ts[i].reference)
  }

  predicate Distinct(ts: seq<Request>)
  {
    forall i, j | 0 <= i < j < |ts| :: ts[i].reference != ts[j].reference
  }

  /** A provider's results carry the references of the requests they answer. */
  ghost predicate EchoesReferences(p: Provider)
  {
    && (forall ref, i, t | p.single(ref, i, t).Done? :: p.single(ref, i, t).result.reference == t.reference)
    && (forall ref, ts, r | p.bulk(ref, ts).Accepted? && r in p.bulk(ref, ts).results :: Mentions(ts, r.reference))
  }

  predicate Mentions(ts: seq<Request>, ref: string) { exists i :: 0 <= i < |ts| && ts[i].reference == ref }

  /** What the submission says about its transfer at position `j`. */
  function Said(p: Provider, s: Submission, j: nat): Option<Result>
    requires j < |s.transfers|
  {
    var t := s.transfers[j];
    match s
    case Pooled(ref, ts) => Some(WorkerResult(t, p.single(ref, j, t)))
    case Native(ref, ts) => if p.bulk(ref, ts).Accepted? then LastWith(p.bulk(ref, ts).results, t.reference) else None
  }

  lemma PartAnswers(p: Provider, s: Submission, part: seq<Result>, j: nat)
    requires EchoesReferences(p) && Carried(p, s, part) && Distinct(s.transfers) && j < |s.transfers|
    ensures LastWith(part, s.transfers[j].reference) == Said(p, s, j)
  {
    if s.Pooled? {
      var all := Singles(p, s.ref, s.transfers);
      var ref := s.transfers[j].reference;
      assert all[j] in all;
      forall r | r in all && r.reference == ref ensures r == all[j] {
        var i :| 0 <= i < |all| && all[i] == r;
        assert s.transfers[i].reference == ref;
      }
      forall r ensures r in part <==> r in all {
        assert r in multiset(part) <==> r in multiset(all);
      }
      SameMembersSameAnswer(all, part, ref);
      LastWithIsOne(all, ref);
    }
  }

  /** Whatever order the workers deliver in, with distinct references the joined responses are those
      of a sequential pass in request order. */
  lemma PoolJoinsAsSequentialPass(p: Provider, ref: string, ts: seq<Request>, results: seq<Result>)
    requires EchoesReferences(p) && Distinct(ts) && multiset(results) == multiset(Singles(p, ref, ts))
    ensures Joined(References(ts), results) ==
      seq(|ts|, i requires 0 <= i < |ts| => Respond(ts[i].reference, Some(WorkerResult(ts[i], p.single(ref, i, ts[i])))))
  {
    forall i | 0 <= i < |ts|
      ensures LastWith(results, ts[i].reference) == Some(WorkerResult(ts[i], p.single(ref, i, ts[i])))
    {
      PartAnswers(p, Pooled(ref, ts), results, i);
    }
  }

  /** A transfer whose single call fails is told so, with the message as its record's error. */
  lemma FailedSingleIsReported(
      p: Provider, ref: string, ts: seq<Request>, results: seq<Result>, i: nat, message: string, before: RecordState)
    requires EchoesReferences(p) && Distinct(ts) && multiset(results) == multiset(Singles(p, ref, ts))
    requires i < |ts| && p.single(ref, i, ts[i]) == Errored(message)
    ensures Joined(References(ts), results)[i] == Response(false, ts[i].reference, "failed", "", "")
    ensures Settled(before, LastWith(results, ts[i].reference)) == RecordState("failed", "", "", Some(message))
  {
    PartAnswers(p, Pooled(ref, ts), results, i);
  }

  lemma PartIsSilentOnOthers(p: Provider, s: Submission, part: seq<Result>, ref: string)
    requires EchoesReferences(p) && Carried(p, s, part) && !Mentions(s.transfers, ref)
    ensures LastWith(part, ref) == None
  {
    LastWithIsOne(part, ref);
    forall r | r in part ensures r.reference != ref {
      if s.Pooled? {
        assert r in multiset(part);
        assert r in multiset(Singles(p, s.ref, s.transfers));
        var i :| 0 <= i < |s.transfers| && Singles(p, s.ref, s.transfers)[i] == r;
        assert s.transfers[i].reference == r.reference;
      }
    }
  }

  lemma {:induction false} OnePartAnswers(parts: seq<seq<Result>>, k: nat, ref: string)
    requires k < |parts| && forall m | 0 <= m < |parts| && m != k :: LastWith(parts[m], ref) == None
    ensures LastWith(Flat(parts), ref) == LastWith(parts[k], ref)
  {
    var n := |parts| - 1;
    LastWithConcat(Flat(parts[..n]), parts[n], ref);
    if k < n {
      OnePartAnswers(parts[..n], k, ref);
    } else {
      NoPartAnswers(parts[..n], ref);
    }
  }

  lemma {:induction false} NoPartAnswers(parts: seq<seq<Result>>, ref: string)
    requires forall m | 0 <= m < |parts| :: LastWith(parts[m], ref) == None
    ensures LastWith(Flat(parts), ref) == None
  {
    if parts != [] {
      var n := |parts| - 1;
      LastWithConcat(Flat(parts[..n]), parts[n], ref);
      NoPartAnswers(parts[..n], ref);
    }
  }

  /** Where the flat position of element `j` of part `k` is. */
  lemma {:induction false} FlatPosition<T>(xs: seq<seq<T>>, k: nat, j: nat) returns (i: nat)
    requires k < |xs| && j < |xs[k]|
    ensures i < |Flat(xs)| && Flat(xs)[i] == xs[k][j]
    ensures k < |xs| - 1 ==> i < |Flat(xs[..|xs| - 1])|
    ensures k == |xs| - 1 ==> i == |Flat(xs[..|xs| - 1])| + j
  {
    var n := |xs| - 1;
    if k < n {
      i := FlatPosition(xs[..n], k, j);
    } else {
      i := |Flat(xs[..n])| + j;
    }
  }

  /** The part a flat position falls in. */
  lemma {:induction false} PartPosition<T>(xs: seq<seq<T>>, i: nat) returns (k: nat, j: nat)
    requires i < |Flat(xs)|
    ensures k < |xs| && j < |xs[k]| && xs[k][j] == Flat(xs)[i]
  {
    var n := |xs| - 1;
    if i < |Flat(xs[..n])| {
      k, j := PartPosition(xs[..n], i);
    } else {
      k, j := n, i - |Flat(xs[..n])|;
    }
  }

  lemma {:induction false} PartsAreDistinct(xs: seq<seq<Request>>, k: nat, m: nat)
    requires Distinct(Flat(xs)) && k < |xs| && m < |xs|
    ensures Distinct(xs[k])
    ensures k != m ==> forall j | 0 <= j < |xs[k]| :: !Mentions(xs[m], xs[k][j].reference)
  {
    var n := |xs| - 1;
    var before := Flat(xs[..n]);
    assert Distinct(before) && Distinct(xs[n]) by {
      assert before == Flat(xs)[..|before|] && xs[n] == Flat(xs)[|before|..];
    }
    if k < n && m < n {
      PartsAreDistinct(xs[..n], k, m);
    } else if k < n {
      PartsAreDistinct(xs[..n], k, k);
      forall j, i | 0 <= j < |xs[k]| && 0 <= i < |xs[n]| ensures xs[n][i].reference != xs[k][j].reference {
        var a := FlatPosition(xs, k, j);
        var b := FlatPosition(xs, n, i);
      }
    } else if m < n {
      forall j, i | 0 <= j < |xs[n]| && 0 <= i < |xs[m]| ensures xs[m][i].reference != xs[n][j].reference {
        var a := FlatPosition(xs, n, j);
        var b := FlatPosition(xs, m, i);
      }
    }
  }

  /** However the results of a batch arrive, each transfer is answered by its own submission: no
      chunk and no worker interferes with another. */
  lemma AnsweredAsSaid(p: Provider, batch: string, ts: seq<Request>, parts: seq<seq<Result>>, k: nat, j: nat)
    requires p.native ==> p.maxBatch > 0
    requires EchoesReferences(p) && Distinct(ts) && AllCarried(p, PlanOf(p, batch, ts), parts)
    requires k < |parts| && j < |PlanOf(p, batch, ts)[k].transfers|
    ensures var s := PlanOf(p, batch, ts)[k];
            LastWith(Flat(parts), s.transfers[j].reference) == Said(p, s, j)
  {
    var plan := PlanOf(p, batch, ts);
    var xs := TransfersOf(plan);
    PlanCoversBatch(p, batch, ts);
    var ref := plan[k].transfers[j].reference;
    forall m | 0 <= m < |parts| && m != k ensures LastWith(parts[m], ref) == None {
      PartsAreDistinct(xs, k, m);
      PartIsSilentOnOthers(p, plan[m], parts[m], ref);
    }
    PartsAreDistinct(xs, k, k);
    OnePartAnswers(parts, k, ref);
    PartAnswers(p, plan[k], parts[k], j);
  }

  /** Every transfer is in some submission, and is reported as what that submission said of it. */
  lemma ReportedAsSaid(p: Provider, batch: string, ts: seq<Request>, parts: seq<seq<Result>>, i: nat) returns (k: nat, j: nat)
    requires p.native ==> p.maxBatch > 0
    requires EchoesReferences(p) && Distinct(ts) && AllCarried(p, PlanOf(p, batch, ts), parts) && i < |ts|
    ensures var plan := PlanOf(p, batch, ts);
            && k < |plan| && j < |plan[k].transfers| && plan[k].transfers[j] == ts[i]
            && Joined(References(ts), Flat(parts))[i] == Respond(ts[i].reference, Said(p, plan[k], j))
  {
    PlanCoversBatch(p, batch, ts);
    k, j := PartPosition(TransfersOf(PlanOf(p, batch, ts)), i);
    AnsweredAsSaid(p, batch, ts, parts, k, j);
  }

  /** And every transfer of a submission is reported. */
  lemma SaidIsReported(p: Provider, batch: string, ts: seq<Request>, parts: seq<seq<Result>>, k: nat, j: nat) returns (i: nat)
    requires p.native ==> p.maxBatch > 0
    requires EchoesReferences(p) && Distinct(ts) && AllCarried(p, PlanOf(p, batch, ts), parts)
    requires k < |parts| && j < |PlanOf(p, batch, ts)[k].transfers|
    ensures var s := PlanOf(p, batch, ts)[k];
            && i < |ts| && ts[i] == s.transfers[j]
            && Joined(References(ts), Flat(parts))[i] == Respond(ts[i].reference, Said(p, s, j))
  {
    PlanCoversBatch(p, batch, ts);
    i := FlatPosition(TransfersOf(PlanOf(p, batch, ts)), k, j);
    AnsweredAsSaid(p, batch, ts, parts, k, j);
  }
}
