/** A batch transfer from request to response, and what its response says about the provider. */
module BatchTransfers {
  import opened Common
  import opened BatchResults
  import opened Bulk

  // ---- aggregation ----

  /** aggregateBulkResults: the status of the results that came back; none at all is complete. */
  method AggregateBulkResults(results: seq<Result>) returns (success: bool, status: string)
    ensures success <==> forall r | r in results :: r.success
    ensures status == "complete" <==> success
    ensures status == "failed" <==> results != [] && forall r | r in results :: !r.success
    ensures status == "partial" <==> (exists r | r in results :: r.success) && (exists r | r in results :: !r.success)
  {
    var successCount, failedCount := 0, 0;
    for i := 0 to |results|
      invariant successCount >= 0 && failedCount >= 0 && successCount + failedCount == i
      invariant successCount == 0 <==> forall k | 0 <= k < i :: !results[k].success
      invariant failedCount == 0 <==> forall k | 0 <= k < i :: results[k].success
    {
      if results[i].success {
        successCount := successCount + 1;
      } else {
        failedCount := failedCount + 1;
      }
    }
    success := failedCount == 0;
    status := if failedCount > 0 && successCount == 0 then "failed" else if failedCount > 0 then "partial" else "complete";
    if failedCount > 0 {
      var k :| 0 <= k < |results| && !results[k].success;
      assert results[k] in results;
    }
    if successCount > 0 {
      var k :| 0 <= k < |results| && results[k].success;
      assert results[k] in results;
    }
  }

  // ---- the batch call ----

  /** Limits of zero are switched off. */
  datatype Limits = Limits(minAmount: int, maxAmount: int)

  /** The nearest integer, halves away from zero. */
  function Round(x: real): int { if x >= 0.0 then (x + 0.5).Floor else -((0.5 - x).Floor) }

  predicate AmountAllowed(amount: Option<real>, l: Limits)
  {
    match amount
    case None => false
    case Some(a) => !(l.minAmount > 0 && Round(a) < l.minAmount) && !(l.maxAmount > 0 && Round(a) > l.maxAmount)
  }

  /** parseAmountToKobo, its error ignored as the batch path does. */
  function KoboOf(amount: Option<real>): int { if amount.Some? then Round(100.0 * amount.value) else 0 }

  /** What the batch path asks of the wallet. */
  datatype WalletCall = Withdraw(reference: string, amount: int) | Unlock(amount: int)

  /** A withdrawal for every transfer that has not failed, an unlock of the amount for one that has. */
  function WalletCalls(batch: string, ts: seq<Request>, responses: seq<Response>): seq<WalletCall>
    requires |responses| == |ts|
  {
    if ts == [] then []
    else
      var n := |ts| - 1;
      var amount := KoboOf(ts[n].amount);
      WalletCalls(batch, ts[..n], responses[..n])
      + if VerdictOf(responses[n]) != Failed then [Withdraw("batch-" + batch + "-" + responses[n].reference, amount)]
        else if amount > 0 then [Unlock(amount)] else []
  }

  datatype BatchResponse = BatchResponse(
    success: bool, total: nat, successful: nat, failed: nat, pending: nat, transfers: seq<Response>)

  function Rejected(t: Request): Response { Response(false, t.reference, "failed", "", "") }

  /** The response to a batch the provider gave results for. */
  function Report(responses: seq<Response>): BatchResponse
  {
    BatchResponse(
      Tally(responses, Failed) == 0, |responses|,
      Tally(responses, Succeeded), Tally(responses, Failed), Tally(responses, Waiting), responses)
  }

  predicate AllAllowed(ts: seq<Request>, l: Limits) { forall i | 0 <= i < |ts| :: AmountAllowed(ts[i].amount, l) }

  /** The batch goes out as a single native call, whose error is the error of the batch. */
  predicate SentWhole(p: Provider, n: nat) { p.native && p.minBatch <= n <= p.maxBatch }

  predicate Refused(p: Provider, batch: string, ts: seq<Request>)
  {
    SentWhole(p, |ts|) && p.bulk(batch, ts).CallFailed?
  }

  /** The response a batch may get, `parts` being what came back for each submission. */
  ghost predicate Answers(
      p: Provider, limits: Limits, batch: string, ts: seq<Request>, response: BatchResponse, parts: seq<seq<Result>>)
    requires p.native ==> p.maxBatch > 0
  {
    if !AllAllowed(ts, limits) then
      exists i | 0 <= i < |ts| ::
        && !AmountAllowed(ts[i].amount, limits) && AllAllowed(ts[..i], limits)
        && response == BatchResponse(false, |ts|, 0, |ts|, 0, [Rejected(ts[i])])
    else if Refused(p, batch, ts) then response == BatchResponse(false, |ts|, 0, |ts|, 0, [])
    else AllCarried(p, PlanOf(p, batch, ts), parts) && response == Report(Joined(References(ts), Flat(parts)))
  }

  /** ExecuteBatchTransfer: one bad amount fails the whole batch before anything is sent, and so
      does an error from the provider manager; otherwise every transfer has its own response, and
      the wallet is asked to pay or to unlock for each. */
  method ExecuteBatchTransfer(p: Provider, limits: Limits, batch: string, ts: seq<Request>)
    returns (response: BatchResponse, wallet: seq<WalletCall>, ghost parts: seq<seq<Result>>)
    requires p.native ==> p.maxBatch > 0
    ensures Answers(p, limits, batch, ts, response, parts)
    ensures response.successful + response.failed + response.pending == response.total == |ts|
    ensures !AllAllowed(ts, limits) || Refused(p, batch, ts) ==>
      !response.success && response.failed == |ts| && wallet == []
    ensures wallet == if AllAllowed(ts, limits) && !Refused(p, batch, ts)
                      then WalletCalls(batch, ts, Joined(References(ts), Flat(parts))) else []
    ensures (exists i :: 0 <= i < |ts| && BadAmount(ts[i].amount, limits.minAmount, limits.maxAmount)) ==>
      response.successful == 0 && response.failed == |ts| && wallet == []
    ensures limits.maxAmount > 0 ==> Sum(wallet, Withdrawn()) <= |ts| * (100 * limits.maxAmount + 50)
  {
    parts, wallet := [], [];
    RefusedForAmountsIff(ts, limits);
    NothingAsked(|ts|, limits);
    for i := 0 to |ts|
      invariant forall j | 0 <= j < i :: AmountAllowed(ts[j].amount, limits)
    {
      if !AmountAllowed(ts[i].amount, limits) {
        response := BatchResponse(false, |ts|, 0, |ts|, 0, [Rejected(ts[i])]);
        assert AllAllowed(ts[..i], limits);
        return;
      }
    }
    var records := CreateRecords(ts);
    var out;
    out, parts := InitiateBulkTransfer(p, batch, ts);
    match out {
      case Refused(_) =>
        response := BatchResponse(false, |ts|, 0, |ts|, 0, []);
      case Gathered(results) =>
        var responses := UpdateTransferRecordsWithResults(records, results);
        assert ReferencesOf(records) == References(ts);
        var successful, failed, pending := CountOutcomes(responses);
        wallet := SettleWallet(batch, ts, responses);
        if limits.maxAmount > 0 {
          AskedWithinLimits(batch, ts, responses, limits);
        }
        response := BatchResponse(failed == 0, |ts|, successful, failed, pending, responses);
    }
  }

  /** A batch that went through is answered transfer by transfer, in order: it is a success if none
      failed, and wholly successful if every one is. */
  lemma AnsweredTransferByTransfer(
      p: Provider, limits: Limits, batch: string, ts: seq<Request>, response: BatchResponse, parts: seq<seq<Result>>)
    requires p.native ==> p.maxBatch > 0
    requires Answers(p, limits, batch, ts, response, parts) && AllAllowed(ts, limits) && !Refused(p, batch, ts)
    ensures response.total == |response.transfers| == |ts|
    ensures forall i | 0 <= i < |ts| :: response.transfers[i].reference == ts[i].reference
    ensures response.success <==> forall r | r in response.transfers :: r.success || r.status == "pending" || r.status == "processing"
    ensures response.successful == |ts| <==> forall r | r in response.transfers :: r.success
  {
    TallyIsZeroIff(response.transfers, Failed);
    TallyIsWholeIff(response.transfers, Succeeded);
  }

  method SettleWallet(batch: string, ts: seq<Request>, responses: seq<Response>) returns (wallet: seq<WalletCall>)
    requires |responses| == |ts|
    ensures wallet == WalletCalls(batch, ts, responses)
  {
    wallet := [];
    for i := 0 to |ts|
      invariant wallet == WalletCalls(batch, ts[..i], responses[..i])
    {
      assert ts[..i + 1][..i] == ts[..i] && responses[..i + 1][..i] == responses[..i];
      var r := responses[i];
      var amount := KoboOf(ts[i].amount);
      if r.success || r.status == "processing" || r.status == "pending" {
        wallet := wallet + [Withdraw("batch-" + batch + "-" + r.reference, amount)];
      } else if amount > 0 {
        wallet := wallet + [Unlock(amount)];
      }
    }
    assert ts[..|ts|] == ts && responses[..|responses|] == responses;
  }

  /** What the wallet is asked for: a withdrawal for each transfer that succeeded, is pending or is
      processing, under a reference of its own, and the release of the amount, if it is positive, for each
      other; nothing else. */
  lemma {:induction false} AskedFor(batch: string, ts: seq<Request>, responses: seq<Response>, c: WalletCall)
    requires |responses| == |ts|
    ensures c in WalletCalls(batch, ts, responses) <==> exists i :: 0 <= i < |ts| && AsksFor(batch, ts[i], responses[i], c)
  {
    if ts != [] {
      var n := |ts| - 1;
      AskedFor(batch, ts[..n], responses[..n], c);
      assert forall i | 0 <= i < n :: ts[..n][i] == ts[i] && responses[..n][i] == responses[i];
      if i :| 0 <= i < n && AsksFor(batch, ts[..n][i], responses[..n][i], c) {
        assert AsksFor(batch, ts[i], responses[i], c);
      }
      if i :| 0 <= i < |ts| && AsksFor(batch, ts[i], responses[i], c) {
        assert i < n ==> AsksFor(batch, ts[..n][i], responses[..n][i], c);
      }
    }
  }

  predicate AsksFor(batch: string, t: Request, r: Response, c: WalletCall)
  {
    if r.success || r.status == "processing" || r.status == "pending"
    then c == Withdraw("batch-" + batch + "-" + r.reference, KoboOf(t.amount))
    else KoboOf(t.amount) > 0 && c == Unlock(KoboOf(t.amount))
  }

  // ---- what the wallet is asked for ----

  function Withdrawn(): WalletCall -> int { (c: WalletCall) => if c.Withdraw? then c.amount else 0 }

  /** The amounts handed over for the transfers that have not failed, as the integers they are. */
  function Handed(ts: seq<Request>, responses: seq<Response>): int
    requires |responses| == |ts|
  {
    if ts == [] then 0
    else
      var n := |ts| - 1;
      Handed(ts[..n], responses[..n])
      + if VerdictOf(responses[n]) != Failed && ts[n].amount.Some? then Round(ts[n].amount.value) else 0
  }

  /** Amounts that are whole numbers. */
  predicate WholeAmounts(ts: seq<Request>)
  {
    forall i | 0 <= i < |ts| && ts[i].amount.Some? :: ts[i].amount.value == Round(ts[i].amount.value) as real
  }

  lemma WholeKobo(a: real)
    requires a == Round(a) as real
    ensures Round(100.0 * a) == 100 * Round(a)
  {
    var n := Round(a);
    assert 100.0 * a == (100 * n) as real;
  }

  /** The wallet is asked for a hundred for every one handed over, since the number is read as naira. */
  lemma {:induction false} WithdrawnIsHundredfold(batch: string, ts: seq<Request>, responses: seq<Response>)
    requires |responses| == |ts| && WholeAmounts(ts)
    ensures Sum(WalletCalls(batch, ts, responses), Withdrawn()) == 100 * Handed(ts, responses)
  {
    if ts != [] {
      var n := |ts| - 1;
      WithdrawnIsHundredfold(batch, ts[..n], responses[..n]);
      var before := WalletCalls(batch, ts[..n], responses[..n]);
      var amount := KoboOf(ts[n].amount);
      if ts[n].amount.Some? {
        WholeKobo(ts[n].amount.value);
      }
      if VerdictOf(responses[n]) != Failed {
        var call := Withdraw("batch-" + batch + "-" + responses[n].reference, amount);
        assert WalletCalls(batch, ts, responses) == before + [call];
        SumAppend(before, call, Withdrawn());
      } else if amount > 0 {
        assert WalletCalls(batch, ts, responses) == before + [Unlock(amount)];
        SumAppend(before, Unlock(amount), Withdrawn());
      } else {
        assert WalletCalls(batch, ts, responses) == before;
      }
    }
  }

  method CreateRecords(ts: seq<Request>) returns (records: seq<TransferRecord>)
    ensures |records| == |ts| && fresh(records)
    ensures forall i | 0 <= i < |ts| :: records[i].reference == ts[i].reference
    ensures forall i | 0 <= i < |ts| :: records[i].State() == RecordState("pending", "", "", None)
    ensures forall i, j | 0 <= i < j < |records| :: records[i] != records[j]
  {
    records := [];
    for i := 0 to |ts|
      invariant |records| == i && fresh(records)
      invariant forall k | 0 <= k < i :: records[k].reference == ts[k].reference
      invariant forall k | 0 <= k < i :: records[k].State() == RecordState("pending", "", "", None)
      invariant forall k, j | 0 <= k < j < |records| :: records[k] != records[j]
    {
      var record := new TransferRecord(ts[i].reference);
      records := records + [record];
    }
  }

  // ---- which amounts are allowed ----

  /** Rounding gives a nearest whole number, and of two the one farther from zero. */
  lemma RoundIsNearest(x: real)
    ensures -0.5 <= Round(x) as real - x <= 0.5
    ensures x - Round(x) as real == 0.5 ==> x < 0.0
    ensures Round(x) as real - x == 0.5 ==> x > 0.0
  {
  }

  /** The kobo of an amount in naira: a nearest whole number to a hundred times it, and none when it
      cannot be read. */
  lemma KoboIsNearest(amount: Option<real>)
    ensures if amount.None? then KoboOf(amount) == 0
            else -0.5 <= KoboOf(amount) as real - 100.0 * amount.value <= 0.5
  {
    if amount.Some? {
      RoundIsNearest(100.0 * amount.value);
    }
  }

  /** An amount cannot be read, or rounds below a minimum that is on, or above such a maximum. */
  predicate BadAmount(amount: Option<real>, minAmount: int, maxAmount: int)
  {
    || amount == None
    || (minAmount > 0 && amount.value < minAmount as real - 0.5)
    || (maxAmount > 0 && amount.value >= maxAmount as real + 0.5)
  }

  /** A batch is refused for its amounts exactly when one of them is bad, in naira: halves are rounded
      up, so the least amount allowed is half a naira below the minimum, and the maximum is exceeded from
      half a naira above it. */
  lemma RefusedForAmountsIff(ts: seq<Request>, l: Limits)
    ensures !AllAllowed(ts, l) <==> exists i :: 0 <= i < |ts| && BadAmount(ts[i].amount, l.minAmount, l.maxAmount)
  {
    forall i | 0 <= i < |ts| ensures !AmountAllowed(ts[i].amount, l) <==> BadAmount(ts[i].amount, l.minAmount, l.maxAmount) {
      BadAmountIff(ts[i].amount, l);
    }
    if !AllAllowed(ts, l) {
      var i :| 0 <= i < |ts| && !AmountAllowed(ts[i].amount, l);
      assert BadAmount(ts[i].amount, l.minAmount, l.maxAmount);
    }
  }

  lemma BadAmountIff(amount: Option<real>, l: Limits)
    ensures !AmountAllowed(amount, l) <==> BadAmount(amount, l.minAmount, l.maxAmount)
  {
    if amount.Some? {
      RoundIsNearest(amount.value);
    }
  }

  /** With a maximum, a batch asks the wallet for no more than it and half a naira for each transfer. */
  lemma {:induction false} AskedWithinLimits(batch: string, ts: seq<Request>, responses: seq<Response>, l: Limits)
    requires |responses| == |ts| && AllAllowed(ts, l) && l.maxAmount > 0
    ensures Sum(WalletCalls(batch, ts, responses), Withdrawn()) <= |ts| * (100 * l.maxAmount + 50)
  {
    if ts != [] {
      var n := |ts| - 1;
      AskedWithinLimits(batch, ts[..n], responses[..n], l);
      KoboWithinLimits(ts[n].amount, l);
      OneMoreAsked(batch, ts, responses);
      OneMoreTime(n, 100 * l.maxAmount + 50);
    }
  }

  lemma OneMoreTime(n: nat, bound: int)
    ensures (n + 1) * bound == n * bound + bound
  {
  }

  lemma OneMoreAsked(batch: string, ts: seq<Request>, responses: seq<Response>)
    requires |responses| == |ts| > 0
    ensures var n := |ts| - 1;
            Sum(WalletCalls(batch, ts, responses), Withdrawn()) <=
              Sum(WalletCalls(batch, ts[..n], responses[..n]), Withdrawn()) + Max(KoboOf(ts[n].amount), 0)
  {
    var n := |ts| - 1;
    var before, calls := WalletCalls(batch, ts[..n], responses[..n]), WalletCalls(batch, ts, responses);
    if VerdictOf(responses[n]) != Failed {
      SumAppend(before, Withdraw("batch-" + batch + "-" + responses[n].reference, KoboOf(ts[n].amount)), Withdrawn());
    } else if KoboOf(ts[n].amount) > 0 {
      SumAppend(before, Unlock(KoboOf(ts[n].amount)), Withdrawn());
    } else {
      assert calls == before;
    }
  }

  lemma NothingAsked(n: nat, l: Limits)
    ensures l.maxAmount > 0 ==> 0 <= n * (100 * l.maxAmount + 50)
  {
  }

  lemma KoboWithinLimits(amount: Option<real>, l: Limits)
    requires AmountAllowed(amount, l) && l.maxAmount > 0
    ensures KoboOf(amount) <= 100 * l.maxAmount + 50
  {
    BadAmountIff(amount, l);
    assert 100.0 * amount.value < (100 * l.maxAmount + 50) as real;
  }

  // ---- what the response says ----

  /** The submissions of a batch in which the provider denied nothing. */
  ghost predicate NothingDenied(p: Provider, plan: seq<Submission>)
  {
    forall k, j | 0 <= k < |plan| && 0 <= j < |plan[k].transfers| ::
      Said(p, plan[k], j).Some? ==> Said(p, plan[k], j).value.success
  }

  /** A batch counts as wholly successful, which is what completes a payroll run, exactly when no
      submission said otherwise about any of its transfers; silence counts as success. */
  lemma WhollySuccessfulIff(p: Provider, batch: string, ts: seq<Request>, parts: seq<seq<Result>>)
    requires p.native ==> p.maxBatch > 0
    requires EchoesReferences(p) && Distinct(ts) && AllCarried(p, PlanOf(p, batch, ts), parts)
    ensures Report(Joined(References(ts), Flat(parts))).successful == |ts| <==> NothingDenied(p, PlanOf(p, batch, ts))
  {
    var plan := PlanOf(p, batch, ts);
    var responses := Joined(References(ts), Flat(parts));
    TallyIsWholeIff(responses, Succeeded);
    if NothingDenied(p, plan) {
      forall i | 0 <= i < |responses| ensures VerdictOf(responses[i]) == Succeeded {
        UndeniedSucceeds(p, batch, ts, parts, i);
      }
    } else {
      var k, j :| 0 <= k < |plan| && 0 <= j < |plan[k].transfers| &&
                  !(Said(p, plan[k], j).Some? ==> Said(p, plan[k], j).value.success);
      var i := SaidIsReported(p, batch, ts, parts, k, j);
      assert VerdictOf(responses[i]) != Succeeded;
    }
  }

  lemma UndeniedSucceeds(p: Provider, batch: string, ts: seq<Request>, parts: seq<seq<Result>>, i: nat)
    requires p.native ==> p.maxBatch > 0
    requires EchoesReferences(p) && Distinct(ts) && AllCarried(p, PlanOf(p, batch, ts), parts)
    requires NothingDenied(p, PlanOf(p, batch, ts)) && i < |ts|
    ensures VerdictOf(Joined(References(ts), Flat(parts))[i]) == Succeeded
  {
    var k, j := ReportedAsSaid(p, batch, ts, parts, i);
    assert Said(p, PlanOf(p, batch, ts)[k], j).Some? ==> Said(p, PlanOf(p, batch, ts)[k], j).value.success;
  }

  lemma RemainderOfNext(x: nat, d: nat)
    requires d > 0
    ensures (x + d) % d == x % d
  {
    var q, r := x / d, x % d;
    assert (q + 1) * d == q * d + d;
    Euclid(x + d, d, q + 1, r);
  }

  predicate AllNative(plan: seq<Submission>) { forall k | 0 <= k < |plan| :: plan[k].Native? }

  lemma AllNativeUnfolds(plan: seq<Submission>, tail: seq<Submission>)
    requires plan != [] && plan == [plan[0]] + tail
    ensures AllNative(plan) <==> plan[0].Native? && AllNative(tail)
  {
    assert forall k | 0 <= k < |tail| :: tail[k] == plan[k + 1];
  }

  /** Every chunk of a split batch is sent as a native call exactly when the last one, if it is not
      full, still reaches the provider's minimum. */
  lemma {:induction false} SplitIsNativeIff(p: Provider, batch: string, number: nat, ts: seq<Request>)
    requires p.maxBatch > 0 && p.minBatch <= p.maxBatch
    ensures var rest := |ts| % p.maxBatch;
            AllNative(Split(p, batch, number, ts)) <==> rest == 0 || rest >= p.minBatch
    decreases |ts|
  {
    if |ts| >= p.maxBatch {
      var plan, tail := Split(p, batch, number, ts), Split(p, batch, number + 1, ts[p.maxBatch..]);
      RemainderOfNext(|ts| - p.maxBatch, p.maxBatch);
      SplitIsNativeIff(p, batch, number + 1, ts[p.maxBatch..]);
      AllNativeUnfolds(plan, tail);
    } else {
      Euclid(|ts|, p.maxBatch, 0, |ts|);
      if ts != [] {
        assert Min(|ts|, p.maxBatch) == |ts| && Split(p, batch, number + 1, ts[|ts|..]) == [];
        AllNativeUnfolds(Split(p, batch, number, ts), []);
      }
    }
  }

  /** A batch larger than the native limit whose native calls all fail is reported as wholly
      successful, whereas the same failure of a smaller batch is reported as a failure. */
  lemma OutageOfSplitBatchIsReportedSuccessful(p: Provider, batch: string, ts: seq<Request>, parts: seq<seq<Result>>)
    requires p.native && 0 < p.maxBatch < |ts| && p.minBatch <= p.maxBatch
    requires |ts| % p.maxBatch == 0 || |ts| % p.maxBatch >= p.minBatch
    requires forall ref, chunk :: p.bulk(ref, chunk).CallFailed?
    requires AllCarried(p, PlanOf(p, batch, ts), parts)
    ensures var r := Report(Joined(References(ts), Flat(parts)));
            r.success && r.successful == |ts| && r.failed == 0 && r.pending == 0
  {
    SplitIsNativeIff(p, batch, 1, ts);
    FailedCallsYieldNothing(p, PlanOf(p, batch, ts), parts);
    SilenceIsSuccess(ts);
  }

  /** A batch for which no results come back counts as wholly successful. */
  lemma SilenceIsSuccess(ts: seq<Request>)
    ensures var r := Report(Joined(References(ts), [])); r.success && r.successful == |ts| && r.failed == 0 && r.pending == 0
  {
    var responses := Joined(References(ts), []);
    TallyIsWholeIff(responses, Succeeded);
    TalliesPartition(responses);
  }

  lemma FailedCallsYieldNothing(p: Provider, plan: seq<Submission>, parts: seq<seq<Result>>)
    requires AllNative(plan) && AllCarried(p, plan, parts)
    requires forall ref, chunk :: p.bulk(ref, chunk).CallFailed?
    ensures Flat(parts) == []
  {
    forall k | 0 <= k < |parts| ensures parts[k] == [] {
      assert Carried(p, plan[k], parts[k]);
    }
    AllEmpty(parts);
  }

  lemma {:induction false} AllEmpty<T>(parts: seq<seq<T>>)
    requires forall k | 0 <= k < |parts| :: parts[k] == []
    ensures Flat(parts) == []
  {
    if parts != [] {
      AllEmpty(parts[..|parts| - 1]);
    }
  }

  // ---- a total outage ----

  /** No native call and no single call of the provider goes through. */
  ghost predicate Outage(p: Provider)
  {
    (forall ref, chunk :: p.bulk(ref, chunk).CallFailed?) && (forall ref, i, t :: p.single(ref, i, t).Errored?)
  }

  lemma OutageResultsFail(p: Provider, plan: seq<Submission>, parts: seq<seq<Result>>, r: Result)
    requires Outage(p) && AllCarried(p, plan, parts) && r in Flat(parts)
    ensures !r.success && r.status == "failed"
  {
    var i :| 0 <= i < |Flat(parts)| && Flat(parts)[i] == r;
    var k, j := PartPosition(parts, i);
    assert Carried(p, plan[k], parts[k]);
    if plan[k].Pooled? {
      assert r in multiset(parts[k]);
      assert r in multiset(Singles(p, plan[k].ref, plan[k].transfers));
    }
  }

  lemma FirstIsFailed(p: Provider, s: Submission, part: seq<Result>) returns (r: Result)
    requires Outage(p) && Carried(p, s, part) && s.Pooled? && s.transfers != []
    ensures r in part && r.reference == s.transfers[0].reference
  {
    var all := Singles(p, s.ref, s.transfers);
    r := all[0];
    assert r in multiset(all);
    assert r in multiset(part);
  }

  lemma FailedWhenAllFail(results: seq<Result>, r: Result)
    requires r in results && forall x | x in results :: !x.success && x.status == "failed"
    ensures VerdictOf(Respond(r.reference, LastWith(results, r.reference))) == Failed
  {
    LastWithIsOne(results, r.reference);
  }

  lemma InPartInFlat(parts: seq<seq<Result>>, k: nat, r: Result)
    requires k < |parts| && r in parts[k]
    ensures r in Flat(parts)
  {
    var j :| 0 <= j < |parts[k]| && parts[k][j] == r;
    var _ := FlatPosition(parts, k, j);
  }

  /** A pooled submission of an outage denies its first transfer. */
  lemma PooledIsDenied(p: Provider, plan: seq<Submission>, parts: seq<seq<Result>>, k: nat)
    requires Outage(p) && AllCarried(p, plan, parts)
    requires k < |plan| && plan[k].Pooled? && plan[k].transfers != []
    ensures var ref := plan[k].transfers[0].reference; VerdictOf(Respond(ref, LastWith(Flat(parts), ref))) == Failed
  {
    assert Carried(p, plan[k], parts[k]);
    var r := FirstIsFailed(p, plan[k], parts[k]);
    InPartInFlat(parts, k, r);
    forall x | x in Flat(parts) ensures !x.success && x.status == "failed" {
      OutageResultsFail(p, plan, parts, x);
    }
    FailedWhenAllFail(Flat(parts), r);
  }

  /** The transfer that starts a submission is one of the batch. */
  lemma StartsInBatch(p: Provider, batch: string, ts: seq<Request>, k: nat) returns (i: nat)
    requires p.native ==> p.maxBatch > 0
    requires k < |PlanOf(p, batch, ts)| && PlanOf(p, batch, ts)[k].transfers != []
    ensures i < |ts| && ts[i] == PlanOf(p, batch, ts)[k].transfers[0]
  {
    PlanCoversBatch(p, batch, ts);
    i := FlatPosition(TransfersOf(PlanOf(p, batch, ts)), k, 0);
  }

  /** The batch is split, and its last chunk still goes native. */
  predicate SplitsIntoNative(p: Provider, n: nat)
    requires p.native ==> p.maxBatch > 0
  {
    p.native && n > p.maxBatch && (n % p.maxBatch == 0 || n % p.maxBatch >= p.minBatch)
  }

  lemma PlanIsNativeIff(p: Provider, batch: string, ts: seq<Request>)
    requires p.native ==> 0 < p.maxBatch && p.minBatch <= p.maxBatch
    requires ts != [] && !SentWhole(p, |ts|)
    ensures AllNative(PlanOf(p, batch, ts)) <==> SplitsIntoNative(p, |ts|)
    ensures forall k | 0 <= k < |PlanOf(p, batch, ts)| :: PlanOf(p, batch, ts)[k].transfers != []
  {
    if p.native && |ts| > p.maxBatch {
      SplitIsNativeIff(p, batch, 1, ts);
      forall k | 0 <= k < |PlanOf(p, batch, ts)| ensures PlanOf(p, batch, ts)[k].transfers != [] {
        SplitShape(p, batch, 1, ts, k);
      }
    } else {
      assert PlanOf(p, batch, ts)[0].Pooled?;
    }
  }

  lemma NativeOutageSucceeds(p: Provider, plan: seq<Submission>, ts: seq<Request>, parts: seq<seq<Result>>)
    requires Outage(p) && AllNative(plan) && AllCarried(p, plan, parts)
    ensures Report(Joined(References(ts), Flat(parts))).successful == |ts|
  {
    FailedCallsYieldNothing(p, plan, parts);
    SilenceIsSuccess(ts);
  }

  lemma OneFailureShows(ts: seq<Request>, results: seq<Result>, i: nat)
    requires i < |ts| && VerdictOf(Respond(ts[i].reference, LastWith(results, ts[i].reference))) == Failed
    ensures Report(Joined(References(ts), results)).successful != |ts|
  {
    var responses := Joined(References(ts), results);
    TallyIsWholeIff(responses, Succeeded);
    assert VerdictOf(responses[i]) == Failed;
  }

  lemma OutageDeniesUnlessNative(p: Provider, batch: string, ts: seq<Request>, parts: seq<seq<Result>>)
    requires p.native ==> 0 < p.maxBatch && p.minBatch <= p.maxBatch
    requires ts != [] && !SentWhole(p, |ts|)
    requires Outage(p) && AllCarried(p, PlanOf(p, batch, ts), parts)
    ensures Report(Joined(References(ts), Flat(parts))).successful == |ts| <==> SplitsIntoNative(p, |ts|)
  {
    var plan := PlanOf(p, batch, ts);
    PlanIsNativeIff(p, batch, ts);
    if AllNative(plan) {
      NativeOutageSucceeds(p, plan, ts, parts);
    } else {
      var k :| 0 <= k < |plan| && !plan[k].Native?;
      var i := StartsInBatch(p, batch, ts, k);
      PooledIsDenied(p, plan, parts, k);
      OneFailureShows(ts, Flat(parts), i);
    }
  }

  /** However it is answered, a batch in a total outage is counted wholly successful if and only if its
      amounts are allowed and it is split into native calls only. */
  lemma OutageCountsAsSuccessIff(
      p: Provider, limits: Limits, batch: string, ts: seq<Request>, response: BatchResponse, parts: seq<seq<Result>>)
    requires p.native ==> 0 < p.maxBatch && p.minBatch <= p.maxBatch
    requires ts != [] && Outage(p) && Answers(p, limits, batch, ts, response, parts)
    ensures response.successful == |ts| <==> AllAllowed(ts, limits) && SplitsIntoNative(p, |ts|)
  {
    if AllAllowed(ts, limits) && !SentWhole(p, |ts|) {
      OutageDeniesUnlessNative(p, batch, ts, parts);
    }
  }
}
