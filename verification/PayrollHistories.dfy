/** What the life of a payroll run can come to: left in processing for good, or holding an employee's
    entry twice. */
module PayrollHistories {
  import opened Common
  import opened PayrollRuns
  import Bulk
  import BatchResults
  import BatchTransfers

  // ---- left in processing ----

  /** The run a call gets to process, as the processing loads it, and what happens to the processing. */
  function Processed(r: Run, op: Op): Option<(Run, Weather)>
  {
    match op
    case Submit(found, policy, unverified, _, _, w) =>
      if found && r.status.Draft? && policy.found && !(unverified && policy.paidPlan)
         && !policy.requiresApproval && policy.autoProcess
      then Some((r, w)) else None
    case Approve(found, policy, save, _, _, w) =>
      if found && r.status.PendingApproval? && policy.found && save.Saved? && policy.autoProcess
      then Some((r.(status := Approved), w)) else None
    case ProcessNow(w) => Some((r, w))
    case Fire(found, w) => if found && r.status.Approved? then Some((r, w)) else None
    case _ => None
  }

  /** The marking save took effect but reported an error, or it succeeded and either there was nobody
      to pay or the closing save was lost. */
  predicate LeftStuck(r: Run, w: Weather)
  {
    && w.found && Processable(r.status)
    && (w.marking.Torn? || (w.marking.Saved? && (Requests(r.id, r.entries) == [] || w.closing.Lost?)))
  }

  predicate Sticks(r: Run, op: Op)
  {
    Processed(r, op).Some? && LeftStuck(Processed(r, op).value.0, Processed(r, op).value.1)
  }

  /** The stuck processing that had sent the batch. */
  predicate PaidThenStuck(r: Run, op: Op)
  {
    Sticks(r, op) && Processed(r, op).value.1.marking.Saved? && Requests(r.id, r.entries) != []
  }

  lemma StepSticksIff(r: Run, op: Op)
    requires !r.status.Processing?
    ensures Step(r, op).0.status.Processing? <==> Sticks(r, op)
    ensures Sticks(r, op) ==> Step(r, op).0.disbursed == r.disbursed + if PaidThenStuck(r, op) then 1 else 0
  {
  }

  /** One of the calls gets to process the run and leaves it stuck. */
  predicate SomeSticks(r: Run, ops: seq<Op>) { exists k :: 0 <= k < |ops| && Sticks(Lived(r, ops[..k]), ops[k]) }

  lemma SomeSticksAppend(r: Run, ops: seq<Op>, op: Op)
    ensures SomeSticks(r, ops + [op]) <==> SomeSticks(r, ops) || Sticks(Lived(r, ops), op)
  {
    var all := ops + [op];
    assert all[..|ops|] == ops && all[|ops|] == op;
    forall k | 0 <= k < |ops| ensures all[..k] == ops[..k] && all[k] == ops[k] {}
    if k :| 0 <= k < |ops| && Sticks(Lived(r, ops[..k]), ops[k]) {
      assert Sticks(Lived(r, all[..k]), all[k]);
    }
    if k :| 0 <= k < |all| && Sticks(Lived(r, all[..k]), all[k]) {
      assert k < |ops| ==> Sticks(Lived(r, ops[..k]), ops[k]);
    }
  }

  lemma OneMore(r: Run, ops: seq<Op>, op: Op)
    ensures Lived(r, ops + [op]) == Step(Lived(r, ops), op).0
  {
    assert (ops + [op])[..|ops|] == ops;
  }

  /** When a run is left in processing: exactly when one of its calls gets to process it and that
      processing leaves it stuck. */
  lemma {:induction false} LeftInProcessingIff(r: Run, ops: seq<Op>)
    requires !r.status.Processing?
    ensures Lived(r, ops).status.Processing? <==> SomeSticks(r, ops)
  {
    if ops != [] {
      var rest, op := ops[..|ops| - 1], ops[|ops| - 1];
      assert ops == rest + [op];
      LeftInProcessingIff(r, rest);
      SomeSticksAppend(r, rest, op);
      OneMore(r, rest, op);
      StillProcessingIff(Lived(r, rest), op);
    }
  }

  lemma StillProcessingIff(r: Run, op: Op)
    ensures Step(r, op).0.status.Processing? <==> r.status.Processing? || Sticks(r, op)
  {
    if !r.status.Processing? {
      StepSticksIff(r, op);
    } else {
      ProcessingIsForever(r, [op]);
      OneMore(r, [], op);
    }
  }

  /** The first such call decides what was sent: a run left in processing has been disbursed if and
      only if that processing had sent its batch, and its loans are not updated. */
  lemma LeftInProcessingSent(id: nat, entries: seq<PayEntry>, ops: seq<Op>, k: nat)
    requires k < |ops| && Sticks(Lived(Created(id, entries), ops[..k]), ops[k])
    ensures var r := Lived(Created(id, entries), ops);
            && r.status.Processing? && r.loanUpdates == 0
            && (r.disbursed == 1 <==> PaidThenStuck(Lived(Created(id, entries), ops[..k]), ops[k]))
  {
    var before := Lived(Created(id, entries), ops[..k]);
    AtMostOnceDisbursed(id, entries, ops[..k]);
    StuckStep(before, ops[k]);
    LivedNext(Created(id, entries), ops, k);
    ProcessingIsForever(Step(before, ops[k]).0, ops[k + 1..]);
  }

  lemma StuckStep(r: Run, op: Op)
    requires Sound(r) && Sticks(r, op)
    ensures var q := Step(r, op).0;
            && q.status.Processing? && q.loanUpdates == 0
            && (q.disbursed == 1 <==> PaidThenStuck(r, op))
  {
  }

  /** Every run with somebody to pay can end so: processed at once, its batch sent, its closing save
      lost, it is in processing after anything that follows. */
  lemma PaidRunStaysInProcessing(id: nat, entries: seq<PayEntry>, batch: BatchReply, later: seq<Op>)
    requires Requests(id, entries) != []
    ensures var r := Lived(Created(id, entries), [ProcessNow(Weather(true, Saved, batch, Lost))] + later);
            r.status.Processing? && r.disbursed == 1 && r.loanUpdates == 0
  {
    var op := ProcessNow(Weather(true, Saved, batch, Lost));
    var ops := [op] + later;
    assert ops[..0] == [] && ops[0] == op;
    assert PaidThenStuck(Created(id, entries), op);
    LeftInProcessingSent(id, entries, ops, 0);
  }

  // ---- entries held twice ----

  lemma {:induction false} RequestsConcat(run: nat, a: seq<PayEntry>, b: seq<PayEntry>)
    ensures Requests(run, a + b) == Requests(run, a) + Requests(run, b)
  {
    if b == [] {
      assert a + b == a;
    } else {
      assert (a + b)[..|a + b| - 1] == a + b[..|b| - 1];
      RequestsConcat(run, a, b[..|b| - 1]);
    }
  }

  /** Somebody is paid by both. */
  predicate Overlap(a: seq<PayEntry>, b: seq<PayEntry>)
  {
    exists i, j :: 0 <= i < |a| && 0 <= j < |b| && Payable(a[i]) && Payable(b[j]) && a[i].employee == b[j].employee
  }

  lemma PaysOnceConcat(a: seq<PayEntry>, b: seq<PayEntry>)
    ensures PaysOnce(a + b) <==> PaysOnce(a) && PaysOnce(b) && !Overlap(a, b)
  {
    var all := a + b;
    if PaysOnce(all) {
      forall i, j | 0 <= i < |a| && 0 <= j < |b| && Payable(a[i]) && Payable(b[j]) ensures a[i].employee != b[j].employee {
        assert all[i] == a[i] && all[|a| + j] == b[j];
      }
      forall i, j | 0 <= i < j < |a| && Payable(a[i]) && Payable(a[j]) ensures a[i].employee != a[j].employee {
        assert all[i] == a[i] && all[j] == a[j];
      }
      forall i, j | 0 <= i < j < |b| && Payable(b[i]) && Payable(b[j]) ensures b[i].employee != b[j].employee {
        assert all[|a| + i] == b[i] && all[|a| + j] == b[j];
      }
    }
  }

  // ---- amendments ----

  /** The amendment is saved: its entries are now with the run. */
  predicate Amends(r: Run, op: Op) { op.Amend? && op.found && r.status.Draft? && op.entries.Some? && !op.save.Lost? }

  /** A call adds to the entries of a run if it is such an amendment, and leaves them otherwise. */
  lemma StepKeepsEntries(r: Run, op: Op)
    ensures Step(r, op).0.entries == r.entries + if Amends(r, op) then op.entries.value else []
  {
  }

  lemma {:induction false} EntriesOnlyGrow(r: Run, ops: seq<Op>)
    ensures r.entries <= Lived(r, ops).entries
  {
    if ops != [] {
      var n := |ops| - 1;
      EntriesOnlyGrow(r, ops[..n]);
      StepKeepsEntries(Lived(r, ops[..n]), ops[n]);
    }
  }

  /** Recalculating pays somebody who is still on the staff. */
  ghost predicate Recalculates(entries: seq<PayEntry>, ops: seq<Op>)
  {
    forall k | 0 <= k < |ops| && ops[k].Amend? && ops[k].entries.Some? :: Overlap(entries, ops[k].entries.value)
  }

  lemma OverlapGrows(a: seq<PayEntry>, b: seq<PayEntry>, c: seq<PayEntry>)
    requires a <= b && Overlap(a, c)
    ensures Overlap(b, c)
  {
    var i, j :| 0 <= i < |a| && 0 <= j < |c| && Payable(a[i]) && Payable(c[j]) && a[i].employee == c[j].employee;
    assert b[i] == a[i];
  }

  /** One of the calls saves an amendment. */
  predicate SomeAmends(r: Run, ops: seq<Op>) { exists k :: 0 <= k < |ops| && Amends(Lived(r, ops[..k]), ops[k]) }

  lemma SomeAmendsAppend(r: Run, ops: seq<Op>, op: Op)
    ensures SomeAmends(r, ops + [op]) <==> SomeAmends(r, ops) || Amends(Lived(r, ops), op)
  {
    var all := ops + [op];
    assert all[..|ops|] == ops && all[|ops|] == op;
    forall k | 0 <= k < |ops| ensures all[..k] == ops[..k] && all[k] == ops[k] {}
    if k :| 0 <= k < |ops| && Amends(Lived(r, ops[..k]), ops[k]) {
      assert Amends(Lived(r, all[..k]), all[k]);
    }
    if k :| 0 <= k < |all| && Amends(Lived(r, all[..k]), all[k]) {
      assert k < |ops| ==> Amends(Lived(r, ops[..k]), ops[k]);
    }
  }

  /** When nobody has two payable entries in a run: exactly when nobody did to begin with and no
      amendment of it was ever saved, since saving one adds the recalculated entries to those it was to replace. */
  lemma {:induction false} PaysOnceIffNeverAmended(r: Run, ops: seq<Op>)
    requires Recalculates(r.entries, ops)
    ensures PaysOnce(Lived(r, ops).entries) <==> PaysOnce(r.entries) && !SomeAmends(r, ops)
  {
    if ops != [] {
      var rest, op := ops[..|ops| - 1], ops[|ops| - 1];
      assert ops == rest + [op];
      PaysOnceIffNeverAmended(r, rest);
      SomeAmendsAppend(r, rest, op);
      OneMore(r, rest, op);
      EntriesOnlyGrow(r, rest);
      StillPaysOnceIff(r.entries, Lived(r, rest), op);
    }
  }

  lemma StillPaysOnceIff(start: seq<PayEntry>, r: Run, op: Op)
    requires start <= r.entries && (op.Amend? && op.entries.Some? ==> Overlap(start, op.entries.value))
    ensures PaysOnce(Step(r, op).0.entries) <==> PaysOnce(r.entries) && !Amends(r, op)
  {
    StepKeepsEntries(r, op);
    if Amends(r, op) {
      OverlapGrows(start, r.entries, op.entries.value);
      PaysOnceConcat(r.entries, op.entries.value);
    } else {
      assert r.entries + [] == r.entries;
    }
  }

  /** What an amended draft asks for: the transfers of both calculations and, when none fails, a debit
      for each. */
  lemma AmendedRunAsksForBoth(r: Run, recalculated: seq<PayEntry>, batch: string, responses: seq<BatchResults.Response>)
    requires r.status.Draft?
    requires var q := Step(r, Amend(true, Some(recalculated), Saved)).0; |responses| == |Requests(q.id, q.entries)|
    requires forall i | 0 <= i < |responses| :: BatchResults.VerdictOf(responses[i]) != BatchResults.Failed
    ensures var q := Step(r, Amend(true, Some(recalculated), Saved)).0;
            && Requests(q.id, q.entries) == Requests(r.id, r.entries) + Requests(r.id, recalculated)
            && Sum(BatchTransfers.WalletCalls(batch, Requests(q.id, q.entries), responses), BatchTransfers.Withdrawn())
               == 100 * (Sum(r.entries, NetIfPayable()) + Sum(recalculated, NetIfPayable()))
  {
    var op := Amend(true, Some(recalculated), Saved);
    StepKeepsEntries(r, op);
    RequestsConcat(r.id, r.entries, recalculated);
    SumConcat(r.entries, recalculated, NetIfPayable());
    PayrollAsksHundredfold(r.id, r.entries + recalculated, batch, responses);
  }
}
