/** The life of a payroll run: submitting, approving, rejecting, amending, processing and reversing
    it, and the scheduler firing, each call atomic with respect to the others. */
module PayrollRuns {
  import opened Common
  import Loans
  import Bulk
  import BatchResults
  import BatchTransfers

  datatype Status = Draft | PendingApproval | Approved | Processing | Completed | Rejected | Failed

  /** An entry of a run: whether its employee could be loaded, whether the bank name maps to a code,
      and the net pay. */
  datatype PayEntry = PayEntry(employee: nat, present: bool, bankKnown: bool, net: int)

  /** A stored run. The last three fields are history: batch transfers sent, loan updates made, and
      payout jobs queued for it. */
  datatype Run = Run(id: nat, status: Status, entries: seq<PayEntry>, disbursed: nat, loanUpdates: nat, jobs: nat)

  /** A save of the run row succeeds, fails, or takes effect and still reports an error. */
  datatype Save = Saved | Lost | Torn

  function After(r: Run, next: Run, s: Save): Run { if s.Lost? then r else next }

  // ---- transfer requests ----

  predicate Payable(e: PayEntry) { e.present && e.bankKnown }

  /** What the references of a run start with. */
  function Prefix(run: nat): string { "PAYROLL-" + Bulk.Decimal(run) + "-EMP-" }

  function Reference(run: nat, employee: nat): string { Prefix(run) + Bulk.Decimal(employee) }

  function RequestFor(run: nat, e: PayEntry): Bulk.Request
  {
    Bulk.Request(Reference(run, e.employee), Some(e.net as real))
  }

  /** One transfer request for each payable entry, in order. */
  function Requests(run: nat, entries: seq<PayEntry>): seq<Bulk.Request>
  {
    if entries == [] then []
    else
      var e := entries[|entries| - 1];
      Requests(run, entries[..|entries| - 1]) + if Payable(e) then [RequestFor(run, e)] else []
  }

  // ---- verification by counting rows ----

  /** A row of the transfers table, and whether it was created within the last two minutes. */
  datatype TransferRow = TransferRow(reference: string, recent: bool)

  /** The verification query asks for one page of this many rows, newest first. */
  const PAGE := 200

  function Page(table: seq<TransferRow>): seq<TransferRow> { if |table| <= PAGE then table else table[..PAGE] }

  predicate Counts(row: TransferRow, run: nat) { row.recent && Prefix(run) <= row.reference }

  function VerifiedCount(rows: seq<TransferRow>, run: nat): nat
  {
    if rows == [] then 0
    else VerifiedCount(rows[..|rows| - 1], run) + if Counts(rows[|rows| - 1], run) then 1 else 0
  }

  /** verifyTransfersInDatabase: the query fails, or yields the business's transfers newest first. */
  method VerifyTransfersInDatabase(table: Option<seq<TransferRow>>, run: nat, expected: nat) returns (allVerified: bool)
    ensures allVerified <==> table.Some? && VerifiedCount(Page(table.value), run) >= expected
  {
    if table.None? {
      return false;
    }
    var rows := Page(table.value);
    var pattern := Prefix(run);
    var verified := 0;
    for i := 0 to |rows|
      invariant verified == VerifiedCount(rows[..i], run)
    {
      assert rows[..i + 1][..i] == rows[..i];
      var r := rows[i];
      if r.recent && r.reference != "" {
        if |r.reference| >= |pattern| && r.reference[..|pattern|] == pattern {
          verified := verified + 1;
        }
      }
    }
    assert rows[..|rows|] == rows;
    allVerified := verified >= expected;
  }

  // ---- processing ----

  /** What the batch transfer answers: an error, or how many transfers it calls successful, and the
      transfers table the verification query then finds, if it works. The code handles an error, but
      ExecuteBatchTransfer answers every failure with a response and none, so a run fails because it
      does not count as paid. */
  datatype BatchReply = BatchError | BatchReport(successful: nat, listed: Option<seq<TransferRow>>)

  datatype Weather = Weather(found: bool, marking: Save, batch: BatchReply, closing: Save)

  /** Complete when every transfer is reported successful, or when as many rows are counted as
      transfers were requested, whatever their status. */
  predicate CountsAsPaid(reply: BatchReply, run: nat, total: nat)
  {
    reply.BatchReport? &&
    (reply.successful == total || (reply.listed.Some? && VerifiedCount(Page(reply.listed.value), run) >= total))
  }

  predicate Processable(s: Status) { s.Approved? || s.Draft? }

  /** Processing a run with nothing in between. */
  function Process(r: Run, w: Weather): (Run, bool)
  {
    if !w.found || !Processable(r.status) then (r, false)
    else
      var marked := After(r, r.(status := Processing), w.marking);
      if !w.marking.Saved? then (marked, false)
      else
        var requests := Requests(r.id, r.entries);
        if requests == [] then (marked, false)
        else
          var sent := marked.(disbursed := marked.disbursed + 1);
          if w.batch.BatchError? then (After(sent, sent.(status := Failed), w.closing), false)
          else
            var paid := CountsAsPaid(w.batch, r.id, |requests|);
            var closed := After(sent, sent.(status := if paid then Completed else Failed), w.closing);
            if !w.closing.Saved? then (closed, false)
            else (closed.(loanUpdates := closed.loanUpdates + if paid then 1 else 0), true)
  }

  // ---- the calls ----

  datatype Policy = Policy(found: bool, requiresApproval: bool, autoProcess: bool, paidPlan: bool)

  datatype Op =
    | Submit(found: bool, policy: Policy, unverified: bool, queued: bool, save: Save, w: Weather)
    | Approve(found: bool, policy: Policy, save: Save, queued: bool, undo: Save, w: Weather)
    | Reject(reason: string, found: bool, sameBusiness: bool, save: Save)
    | Amend(found: bool, entries: Option<seq<PayEntry>>, save: Save)
    | ProcessNow(w: Weather)
    | Reverse(reason: string, found: bool, save: Save)
    | Fire(found: bool, w: Weather)

  function Submitted(r: Run, op: Op): (Run, bool)
    requires op.Submit?
  {
    if !op.found || !r.status.Draft? || !op.policy.found || (op.unverified && op.policy.paidPlan) then (r, false)
    else if op.policy.requiresApproval then (After(r, r.(status := PendingApproval), op.save), op.save.Saved?)
    else if op.policy.autoProcess then Process(r, op.w)
    else if !op.queued then (r, false)
    else
      var q := r.(jobs := r.jobs + 1);
      (After(q, q.(status := Approved), op.save), op.save.Saved?)
  }

  function ApprovedBy(r: Run, op: Op): (Run, bool)
    requires op.Approve?
  {
    if !op.found || !r.status.PendingApproval? || !op.policy.found then (r, false)
    else
      var a := After(r, r.(status := Approved), op.save);
      if !op.save.Saved? then (a, false)
      else if op.policy.autoProcess then Process(a, op.w)
      else if op.queued then (a.(jobs := a.jobs + 1), true)
      else (After(a, a.(status := PendingApproval), op.undo), false)
  }

  function Step(r: Run, op: Op): (Run, bool)
  {
    match op
    case Submit(_, _, _, _, _, _) => Submitted(r, op)
    case Approve(_, _, _, _, _, _) => ApprovedBy(r, op)
    case Reject(reason, found, sameBusiness, save) =>
      if reason == "" || !found || !r.status.PendingApproval? || !sameBusiness then (r, false)
      else (After(r, r.(status := Rejected), save), save.Saved?)
    case Amend(found, entries, save) =>
      if !found || !r.status.Draft? || entries.None? then (r, false)
      else (After(r, r.(entries := r.entries + entries.value), save), save.Saved?)
    case ProcessNow(w) => Process(r, w)
    case Reverse(reason, found, save) =>
      if reason == "" || !found || !r.status.Completed? then (r, false)
      else (After(r, r.(status := Rejected), save), save.Saved?)
    case Fire(found, w) =>
      if !found then (r, false) else if !r.status.Approved? then (r, true) else Process(r, w)
  }

  // ---- at most one disbursement ----

  predicate Early(s: Status) { s.Draft? || s.PendingApproval? || s.Approved? }

  function Created(id: nat, entries: seq<PayEntry>): Run { Run(id, Draft, entries, 0, 0, 0) }

  predicate Sound(r: Run)
  {
    && r.loanUpdates <= r.disbursed <= 1
    && (Early(r.status) ==> r.disbursed == 0)
    && (r.status.Completed? ==> r.disbursed == 1)
  }

  lemma StepIsSound(r: Run, op: Op)
    requires Sound(r)
    ensures Sound(Step(r, op).0)
    ensures !Early(r.status) ==> !Early(Step(r, op).0.status)
    ensures Step(r, op).0.disbursed > r.disbursed ==> Early(r.status) && !Early(Step(r, op).0.status)
    ensures !Early(r.status) ==> Step(r, op).0.(status := r.status) == r
  {
  }

  function Lived(r: Run, ops: seq<Op>): Run
  {
    if ops == [] then r else Step(Lived(r, ops[..|ops| - 1]), ops[|ops| - 1]).0
  }

  /** Over every sequence of calls and failures a run is disbursed at most once and its loans updated
      at most once, and only after the disbursement. */
  lemma {:induction false} AtMostOnceDisbursed(id: nat, entries: seq<PayEntry>, ops: seq<Op>)
    ensures var r := Lived(Created(id, entries), ops);
            Sound(r) && r.disbursed <= 1 && r.loanUpdates <= r.disbursed && r.id == id
  {
    if ops != [] {
      AtMostOnceDisbursed(id, entries, ops[..|ops| - 1]);
      StepIsSound(Lived(Created(id, entries), ops[..|ops| - 1]), ops[|ops| - 1]);
    }
  }

  /** A run that has left the early statuses never returns to them: nothing is disbursed, no loan
      is updated and no entry changes any more. */
  lemma {:induction false} NoWayBack(r: Run, ops: seq<Op>)
    requires Sound(r) && !Early(r.status)
    ensures var q := Lived(r, ops); Sound(q) && !Early(q.status) && q.(status := r.status) == r
  {
    if ops != [] {
      NoWayBack(r, ops[..|ops| - 1]);
      StepIsSound(Lived(r, ops[..|ops| - 1]), ops[|ops| - 1]);
    }
  }

  /** A call leaves a processing run as it is. */
  lemma {:induction false} ProcessingIsForever(r: Run, ops: seq<Op>)
    requires r.status.Processing?
    ensures Lived(r, ops) == r
  {
    if ops != [] {
      ProcessingIsForever(r, ops[..|ops| - 1]);
    }
  }

  /** How the closing save of the processing a call may do went. */
  function ClosingOf(op: Op): Save
  {
    match op
    case Submit(_, _, _, _, _, w) => w.closing
    case Approve(_, _, _, _, _, w) => w.closing
    case ProcessNow(w) => w.closing
    case Fire(_, w) => w.closing
    case _ => Saved
  }

  lemma {:induction false} LivedConcat(r: Run, first: seq<Op>, second: seq<Op>)
    ensures Lived(r, first + second) == Lived(Lived(r, first), second)
  {
    if second == [] {
      assert first + second == first;
    } else {
      var n := |second| - 1;
      assert (first + second)[..|first + second| - 1] == first + second[..n];
      LivedConcat(r, first, second[..n]);
    }
  }

  lemma LivedNext(r: Run, ops: seq<Op>, k: nat)
    requires k < |ops|
    ensures Lived(r, ops[..k + 1]) == Step(Lived(r, ops[..k]), ops[k]).0
    ensures Lived(r, ops) == Lived(Lived(r, ops[..k + 1]), ops[k + 1..])
  {
    assert ops[..k + 1][..k] == ops[..k];
    LivedConcat(r, ops[..k + 1], ops[k + 1..]);
    assert ops[..k + 1] + ops[k + 1..] == ops;
  }

  lemma CompletingStep(r: Run, op: Op)
    requires Sound(r) && !r.status.Completed? && Step(r, op).0.status.Completed?
    ensures var q := Step(r, op).0; q.disbursed == 1 && (q.loanUpdates == 1 <==> !ClosingOf(op).Torn?)
  {
  }

  /** Exactly when a run that was completed has had its loans updated: the closing save of the call
      that completed it was not torn. Nothing later makes up for it. */
  lemma LoansUpdatedIff(id: nat, entries: seq<PayEntry>, ops: seq<Op>, k: nat)
    requires k < |ops|
    requires !Lived(Created(id, entries), ops[..k]).status.Completed?
    requires Lived(Created(id, entries), ops[..k + 1]).status.Completed?
    ensures var r := Lived(Created(id, entries), ops);
            r.disbursed == 1 && (r.loanUpdates == 1 <==> !ClosingOf(ops[k]).Torn?)
  {
    var before, after := Lived(Created(id, entries), ops[..k]), Lived(Created(id, entries), ops[..k + 1]);
    LivedNext(Created(id, entries), ops, k);
    AtMostOnceDisbursed(id, entries, ops[..k]);
    AtMostOnceDisbursed(id, entries, ops[..k + 1]);
    CompletingStep(before, ops[k]);
    NoWayBack(after, ops[k + 1..]);
  }

  /** Every completed run was completed by one of its calls. */
  lemma {:induction false} SomeCallCompleted(id: nat, entries: seq<PayEntry>, ops: seq<Op>) returns (k: nat)
    requires Lived(Created(id, entries), ops).status.Completed?
    ensures k < |ops| && !Lived(Created(id, entries), ops[..k]).status.Completed?
    ensures Lived(Created(id, entries), ops[..k + 1]).status.Completed?
  {
    var n := |ops| - 1;
    assert ops[..n + 1] == ops;
    if Lived(Created(id, entries), ops[..n]).status.Completed? {
      k := SomeCallCompleted(id, entries, ops[..n]);
      assert ops[..n][..k] == ops[..k] && ops[..n][..k + 1] == ops[..k + 1];
    } else {
      k := n;
    }
  }

  /** So a completed run has updated its loans if and only if the save that completed it was not torn. */
  lemma CompletedRunUpdatedLoansIff(id: nat, entries: seq<PayEntry>, ops: seq<Op>) returns (k: nat)
    requires Lived(Created(id, entries), ops).status.Completed?
    ensures k < |ops| && Lived(Created(id, entries), ops[..k + 1]).status.Completed?
    ensures !Lived(Created(id, entries), ops[..k]).status.Completed?
    ensures Lived(Created(id, entries), ops).loanUpdates == 1 <==> !ClosingOf(ops[k]).Torn?
  {
    k := SomeCallCompleted(id, entries, ops);
    LoansUpdatedIff(id, entries, ops, k);
  }

  // ---- references ----

  /** The reference of an employee's pay, spelled out. */
  lemma ReferenceSpelled(run: nat, employee: nat)
    ensures Reference(run, employee) == "PAYROLL-" + Bulk.Decimal(run) + "-EMP-" + Bulk.Decimal(employee)
    ensures Prefix(run) <= Reference(run, employee)
  {
    assert Reference(run, employee)[..|Prefix(run)|] == Prefix(run);
  }

  lemma ReferencesSeparate(run: nat, a: nat, b: nat)
    requires Reference(run, a) == Reference(run, b)
    ensures a == b
  {
    var n := |Prefix(run)|;
    assert Reference(run, a)[n..] == Bulk.Decimal(a) && Reference(run, b)[n..] == Bulk.Decimal(b);
    Bulk.DecimalIsInjective(a, b);
  }

  lemma {:induction false} RequestOrigin(run: nat, entries: seq<PayEntry>, q: Bulk.Request)
    requires q in Requests(run, entries)
    ensures exists e :: e in entries && Payable(e) && q == RequestFor(run, e)
  {
    var e := entries[|entries| - 1];
    if q in Requests(run, entries[..|entries| - 1]) {
      RequestOrigin(run, entries[..|entries| - 1], q);
    } else {
      assert e in entries && Payable(e) && q == RequestFor(run, e);
    }
  }

  /** Which transfers a run requests: exactly one kind for each entry whose employee was loaded and whose
      bank is known, of its net pay, under the reference of that employee. */
  lemma {:induction false} RequestedIff(run: nat, entries: seq<PayEntry>, q: Bulk.Request)
    ensures q in Requests(run, entries) <==>
      exists e :: e in entries && e.present && e.bankKnown && q == Bulk.Request(Reference(run, e.employee), Some(e.net as real))
  {
    if entries != [] {
      var front, e := entries[..|entries| - 1], entries[|entries| - 1];
      assert entries == front + [e];
      RequestedIff(run, front, q);
      if e.present && e.bankKnown {
        assert Requests(run, entries) == Requests(run, front) + [Bulk.Request(Reference(run, e.employee), Some(e.net as real))];
      } else {
        assert Requests(run, entries) == Requests(run, front);
      }
    }
  }

  /** And as many as there are such entries. */
  lemma {:induction false} RequestedAsMany(run: nat, entries: seq<PayEntry>)
    ensures |Requests(run, entries)| == Sum(entries, (e: PayEntry) => if e.present && e.bankKnown then 1 else 0)
  {
    if entries != [] {
      RequestedAsMany(run, entries[..|entries| - 1]);
    }
  }

  /** A payable entry for the employee. */
  predicate Pays(entries: seq<PayEntry>, employee: nat)
  {
    exists i :: 0 <= i < |entries| && Payable(entries[i]) && entries[i].employee == employee
  }

  lemma {:induction false} PaysIff(run: nat, entries: seq<PayEntry>, employee: nat)
    ensures Pays(entries, employee) <==> Bulk.Mentions(Requests(run, entries), Reference(run, employee))
  {
    if entries != [] {
      var n := |entries| - 1;
      var rest, before := entries[..n], Requests(run, entries[..n]);
      PaysIff(run, rest, employee);
      PaysAppend(rest, entries[n], employee);
      assert rest + [entries[n]] == entries;
      if Payable(entries[n]) {
        var last := RequestFor(run, entries[n]);
        MentionsAppend(before, last, Reference(run, employee));
        if Reference(run, entries[n].employee) == Reference(run, employee) {
          ReferencesSeparate(run, entries[n].employee, employee);
        }
      } else {
        assert Requests(run, entries) == before;
      }
    }
  }

  lemma PaysAppend(entries: seq<PayEntry>, e: PayEntry, employee: nat)
    ensures Pays(entries + [e], employee) <==> Pays(entries, employee) || (Payable(e) && e.employee == employee)
  {
    if i :| 0 <= i < |entries| && Payable(entries[i]) && entries[i].employee == employee {
      assert (entries + [e])[i] == entries[i];
    }
    assert (entries + [e])[|entries|] == e;
  }

  lemma MentionsAppend(ts: seq<Bulk.Request>, t: Bulk.Request, ref: string)
    ensures Bulk.Mentions(ts + [t], ref) <==> Bulk.Mentions(ts, ref) || t.reference == ref
  {
    if Bulk.Mentions(ts, ref) {
      var i :| 0 <= i < |ts| && ts[i].reference == ref;
      assert (ts + [t])[i] == ts[i];
    }
    assert (ts + [t])[|ts|] == t;
  }

  /** No two payable entries are for one employee. */
  predicate PaysOnce(entries: seq<PayEntry>)
  {
    forall i, j | 0 <= i < j < |entries| && Payable(entries[i]) && Payable(entries[j]) :: entries[i].employee != entries[j].employee
  }

  lemma PaysOnceAppend(entries: seq<PayEntry>, e: PayEntry)
    ensures PaysOnce(entries + [e]) <==> PaysOnce(entries) && !(Payable(e) && Pays(entries, e.employee))
  {
    var all := entries + [e];
    assert all[|entries|] == e && forall i | 0 <= i < |entries| :: all[i] == entries[i];
    forall i | 0 <= i < |entries| && Payable(entries[i]) && entries[i].employee == e.employee ensures Pays(entries, e.employee) {}
  }

  lemma DistinctAppend(ts: seq<Bulk.Request>, t: Bulk.Request)
    ensures Bulk.Distinct(ts + [t]) <==> Bulk.Distinct(ts) && !Bulk.Mentions(ts, t.reference)
  {
    var all := ts + [t];
    assert all[|ts|] == t && forall i | 0 <= i < |ts| :: all[i] == ts[i];
  }

  /** The references of a batch are distinct if and only if nobody has two payable entries; joining its
      results back to the records needs them to be. */
  lemma {:induction false} DistinctIffPaysOnce(run: nat, entries: seq<PayEntry>)
    ensures Bulk.Distinct(Requests(run, entries)) <==> PaysOnce(entries)
  {
    if entries != [] {
      var n := |entries| - 1;
      var before := Requests(run, entries[..n]);
      assert entries[..n] + [entries[n]] == entries;
      DistinctIffPaysOnce(run, entries[..n]);
      PaysOnceAppend(entries[..n], entries[n]);
      if Payable(entries[n]) {
        DistinctAppend(before, RequestFor(run, entries[n]));
        PaysIff(run, entries[..n], entries[n].employee);
      } else {
        assert Requests(run, entries) == before;
      }
    }
  }

  /** buildTransferRequests: unpayable entries are skipped. */
  method BuildTransferRequests(run: nat, entries: seq<PayEntry>) returns (transfers: seq<Bulk.Request>)
    ensures transfers == Requests(run, entries)
  {
    transfers := [];
    for i := 0 to |entries|
      invariant transfers == Requests(run, entries[..i])
    {
      assert entries[..i + 1][..i] == entries[..i];
      var e := entries[i];
      if e.present {
        if e.bankKnown {
          transfers := transfers + [Bulk.Request(Reference(run, e.employee), Some(e.net as real))];
        }
      }
    }
    assert entries[..|entries|] == entries;
  }

  // ---- units ----

  function NetIfPayable(): PayEntry -> int { (e: PayEntry) => if Payable(e) then e.net else 0 }

  lemma {:induction false} RequestsAreWhole(run: nat, entries: seq<PayEntry>)
    ensures BatchTransfers.WholeAmounts(Requests(run, entries))
  {
    if entries != [] {
      var n := |entries| - 1;
      RequestsAreWhole(run, entries[..n]);
      assert BatchTransfers.Round(entries[n].net as real) == entries[n].net;
    }
  }

  /** When no transfer of a payroll has failed, what it handed over is the net pay. */
  lemma {:induction false} HandedIsNet(run: nat, entries: seq<PayEntry>, responses: seq<BatchResults.Response>)
    requires |responses| == |Requests(run, entries)|
    requires forall i | 0 <= i < |responses| :: BatchResults.VerdictOf(responses[i]) != BatchResults.Failed
    ensures BatchTransfers.Handed(Requests(run, entries), responses) == Sum(entries, NetIfPayable())
  {
    if entries != [] {
      var n := |entries| - 1;
      var ts, before := Requests(run, entries), Requests(run, entries[..n]);
      if Payable(entries[n]) {
        assert ts == before + [RequestFor(run, entries[n])] && ts[..|ts| - 1] == before;
        HandedIsNet(run, entries[..n], responses[..|ts| - 1]);
        assert BatchTransfers.Round(entries[n].net as real) == entries[n].net;
      } else {
        assert ts == before;
        HandedIsNet(run, entries[..n], responses);
      }
    }
  }

  /** Net pay is in kobo and is handed to a batch that reads naira: when no transfer fails, the wallet
      is asked for a hundred times the net pay of the run, and so for exactly the net pay if and only if
      that is zero. */
  lemma PayrollAsksHundredfold(run: nat, entries: seq<PayEntry>, batch: string, responses: seq<BatchResults.Response>)
    requires |responses| == |Requests(run, entries)|
    requires forall i | 0 <= i < |responses| :: BatchResults.VerdictOf(responses[i]) != BatchResults.Failed
    ensures var asked := Sum(BatchTransfers.WalletCalls(batch, Requests(run, entries), responses), BatchTransfers.Withdrawn());
            var net := Sum(entries, NetIfPayable());
            asked == 100 * net && (asked == net <==> net == 0)
  {
    RequestsAreWhole(run, entries);
    BatchTransfers.WithdrawnIsHundredfold(batch, Requests(run, entries), responses);
    HandedIsNet(run, entries, responses);
  }

  // ---- the service ----

  function LoanEntries(entries: seq<PayEntry>): seq<Loans.Entry>
  {
    seq(|entries|, i requires 0 <= i < |entries| => Loans.Entry(entries[i].employee, entries[i].present))
  }

  /** The loan table after a call: repaid through the run's entries if the call updated loans. */
  function LoansAfter(rows: seq<Loans.Loan>, before: Run, after: Run, f: Loans.Faults): seq<Loans.Loan>
  {
    if after.loanUpdates == before.loanUpdates then rows
    else Loans.AfterEntries(rows, LoanEntries(before.entries), |before.entries|, f)
  }

  class PayrollService {
    var run: Run
    const loans: Loans.LoanService

    constructor (id: nat, entries: seq<PayEntry>, loans: Loans.LoanService)
      ensures run == Created(id, entries) && this.loans == loans
    {
      run := Run(id, Draft, entries, 0, 0, 0);
      this.loans := loans;
    }

    method Store(next: Run, save: Save) returns (ok: bool)
      modifies this
      ensures run == After(old(run), next, save) && ok == save.Saved?
    {
      if !save.Lost? {
        run := next;
      }
      ok := save.Saved?;
    }

    method ProcessPayrollRunInstantly(w: Weather, f: Loans.Faults) returns (ok: bool)
      modifies this, loans
      ensures (run, ok) == Process(old(run), w)
      ensures loans.rows == LoansAfter(old(loans.rows), old(run), run, f)
    {
      if !w.found || !(run.status.Approved? || run.status.Draft?) {
        return false;
      }
      ok := Store(run.(status := Processing), w.marking);
      if !ok {
        return false;
      }
      var transfers := BuildTransferRequests(run.id, run.entries);
      if transfers == [] {
        return false;
      }
      run := run.(disbursed := run.disbursed + 1);
      match w.batch {
        case BatchError =>
          ok := Store(run.(status := Failed), w.closing);
          return false;
        case BatchReport(successful, listed) =>
          var allVerified := VerifyTransfersInDatabase(listed, run.id, |transfers|);
          var verdict := if successful == |transfers| || allVerified then Completed else Failed;
          ok := Store(run.(status := verdict), w.closing);
          if !ok {
            return false;
          }
          if verdict == Completed {
            loans.UpdateLoanBalances(LoanEntries(run.entries), f);
            run := run.(loanUpdates := run.loanUpdates + 1);
          }
      }
    }

    method SubmitForApproval(op: Op, f: Loans.Faults) returns (ok: bool)
      requires op.Submit?
      modifies this, loans
      ensures (run, ok) == Step(old(run), op)
      ensures loans.rows == LoansAfter(old(loans.rows), old(run), run, f)
    {
      if !op.found || !run.status.Draft? || !op.policy.found {
        return false;
      }
      if op.unverified && op.policy.paidPlan {
        return false;
      }
      if !op.policy.requiresApproval {
        if op.policy.autoProcess {
          ok := ProcessPayrollRunInstantly(op.w, f);
          return;
        }
        if !op.queued {
          return false;
        }
        run := run.(jobs := run.jobs + 1);
        ok := Store(run.(status := Approved), op.save);
      } else {
        ok := Store(run.(status := PendingApproval), op.save);
      }
    }

    method ApprovePayrollRun(op: Op, f: Loans.Faults) returns (ok: bool)
      requires op.Approve?
      modifies this, loans
      ensures (run, ok) == Step(old(run), op)
      ensures loans.rows == LoansAfter(old(loans.rows), old(run), run, f)
    {
      if !op.found || !run.status.PendingApproval? || !op.policy.found {
        return false;
      }
      ok := Store(run.(status := Approved), op.save);
      if !ok {
        return false;
      }
      if op.policy.autoProcess {
        ok := ProcessPayrollRunInstantly(op.w, f);
        return;
      }
      if !op.queued {
        ok := Store(run.(status := PendingApproval), op.undo);
        return false;
      }
      run := run.(jobs := run.jobs + 1);
    }

    method RejectPayrollRun(reason: string, found: bool, sameBusiness: bool, save: Save) returns (ok: bool)
      modifies this
      ensures (run, ok) == Step(old(run), Reject(reason, found, sameBusiness, save))
    {
      if reason == "" || !found || !run.status.PendingApproval? || !sameBusiness {
        return false;
      }
      ok := Store(run.(status := Rejected), save);
    }

    /** The recalculated entries have no identity yet: saving the run inserts them, and nothing deletes
        those already stored with it. */
    method AmendPayrollRun(found: bool, recalculated: Option<seq<PayEntry>>, save: Save) returns (ok: bool)
      modifies this
      ensures (run, ok) == Step(old(run), Amend(found, recalculated, save))
    {
      if !found || !run.status.Draft? || recalculated.None? {
        return false;
      }
      ok := Store(run.(entries := run.entries + recalculated.value), save);
    }

    method ReversePayrollRun(reason: string, found: bool, save: Save) returns (ok: bool)
      modifies this
      ensures (run, ok) == Step(old(run), Reverse(reason, found, save))
    {
      if reason == "" || !found || !run.status.Completed? {
        return false;
      }
      ok := Store(run.(status := Rejected), save);
    }

    /** What the scheduler calls when a payout job fires. */
    method ProcessApprovedPayroll(found: bool, w: Weather, f: Loans.Faults) returns (ok: bool)
      modifies this, loans
      ensures (run, ok) == Step(old(run), Fire(found, w))
      ensures loans.rows == LoansAfter(old(loans.rows), old(run), run, f)
    {
      if !found {
        return false;
      }
      if !run.status.Approved? {
        return true;
      }
      ok := ProcessPayrollRunInstantly(w, f);
    }
  }

  // ---- many runs and one loan table ----

  datatype Books = Books(runs: seq<Run>, rows: seq<Loans.Loan>)

  datatype Call = Call(run: nat, op: Op)

  /** A call on one of the runs, with the loan updates it makes succeeding. */
  function Made(b: Books, c: Call): Books
  {
    if c.run >= |b.runs| then b
    else
      var r := Step(b.runs[c.run], c.op).0;
      Books(b.runs[c.run := r], LoansAfter(b.rows, b.runs[c.run], r, Loans.NO_FAULTS))
  }

  function MadeAll(b: Books, calls: seq<Call>): Books
  {
    if calls == [] then b else Made(MadeAll(b, calls[..|calls| - 1]), calls[|calls| - 1])
  }

  /** How often the loan updates of a run have repaid the loans of an employee. */
  function Charges(employee: nat): Run -> int
  {
    (r: Run) => if r.loanUpdates == 0 then 0 else EntriesOf(r.entries, employee)
  }

  function EntriesOf(entries: seq<PayEntry>, employee: nat): nat
  {
    if entries == [] then 0
    else
      var e := entries[|entries| - 1];
      EntriesOf(entries[..|entries| - 1], employee) + if e.present && e.employee == employee then 1 else 0
  }

  lemma {:induction false} EntriesAreHits(entries: seq<PayEntry>, k: nat, employee: nat, i: nat)
    requires k <= |entries|
    ensures Loans.HitCount(LoanEntries(entries), k, Loans.NO_FAULTS, employee, i) == EntriesOf(entries[..k], employee)
  {
    if k > 0 {
      EntriesAreHits(entries, k - 1, employee, i);
      assert entries[..k][..k - 1] == entries[..k - 1];
    }
  }

  /** The loan table is what it was when the runs were created, each loan repaid once for each entry
      of its employee in a run that has updated loans. */
  ghost predicate Charged(b: Books, start: seq<Loans.Loan>)
  {
    && |b.rows| == |start|
    && (forall r | r in b.runs :: Sound(r))
    && forall i | 0 <= i < |start| ::
         Sum(b.runs, Charges(start[i].employee)) >= 0 &&
         b.rows[i] == Loans.Repaid(start[i], Sum(b.runs, Charges(start[i].employee)))
  }

  lemma StepCharges(r: Run, op: Op, employee: nat)
    requires Sound(r)
    ensures var q := Step(r, op).0;
            var entries := EntriesOf(r.entries, employee);
            && Sound(q)
            && Charges(employee)(q) == Charges(employee)(r) + if q.loanUpdates == r.loanUpdates then 0 else entries
  {
    StepIsSound(r, op);
    StepKeepsChargedEntries(r, op);
  }

  lemma StepKeepsChargedEntries(r: Run, op: Op)
    requires Sound(r)
    ensures var q := Step(r, op).0;
            && (q.loanUpdates == r.loanUpdates || (r.loanUpdates == 0 && q.loanUpdates == 1 && q.entries == r.entries))
            && (r.loanUpdates > 0 ==> q.entries == r.entries)
  {
    StepIsSound(r, op);
  }

  /** What a call does to one loan. */
  lemma MadeRow(b: Books, c: Call, i: nat)
    requires c.run < |b.runs| && i < |b.rows|
    ensures var r := b.runs[c.run];
            var q := Step(r, c.op).0;
            && Made(b, c).runs == b.runs[c.run := q] && |Made(b, c).rows| == |b.rows|
            && Made(b, c).rows[i] == if q.loanUpdates == r.loanUpdates then b.rows[i]
                                     else Loans.Repaid(b.rows[i], EntriesOf(r.entries, b.rows[i].employee))
  {
    var r := b.runs[c.run];
    EntriesAreHits(r.entries, |r.entries|, b.rows[i].employee, i);
    assert r.entries[..|r.entries|] == r.entries;
  }

  /** A loan repaid as often as its runs charged it stays so when one of them charges it again. */
  lemma ChargedAgain(runs: seq<Run>, k: nat, q: Run, loan: Loans.Loan, hits: nat)
    requires k < |runs| && Charges(loan.employee)(q) == Charges(loan.employee)(runs[k]) + hits
    requires Sum(runs, Charges(loan.employee)) >= 0
    ensures Sum(runs[k := q], Charges(loan.employee)) == Sum(runs, Charges(loan.employee)) + hits
    ensures Loans.Repaid(Loans.Repaid(loan, Sum(runs, Charges(loan.employee))), hits)
         == Loans.Repaid(loan, Sum(runs[k := q], Charges(loan.employee)))
  {
    SumUpdate(runs, k, q, Charges(loan.employee));
    Loans.RepaidAdds(loan, Sum(runs, Charges(loan.employee)), hits);
  }

  lemma LoanStaysCharged(b: Books, loan: Loans.Loan, c: Call, i: nat)
    requires c.run < |b.runs| && i < |b.rows| && Sound(b.runs[c.run])
    requires var n := Sum(b.runs, Charges(loan.employee)); n >= 0 && b.rows[i] == Loans.Repaid(loan, n)
    ensures |Made(b, c).rows| == |b.rows|
    ensures var m := Sum(Made(b, c).runs, Charges(loan.employee)); m >= 0 && Made(b, c).rows[i] == Loans.Repaid(loan, m)
  {
    var r := b.runs[c.run];
    var q := Step(r, c.op).0;
    MadeRow(b, c, i);
    StepCharges(r, c.op, loan.employee);
    Loans.RepaidKeepsTerms(loan, Sum(b.runs, Charges(loan.employee)));
    var hits := if q.loanUpdates == r.loanUpdates then 0 else EntriesOf(r.entries, loan.employee);
    ChargedAgain(b.runs, c.run, q, loan, hits);
    assert Made(b, c).rows[i] == Loans.Repaid(b.rows[i], hits);
  }

  lemma MadeStaysCharged(b: Books, start: seq<Loans.Loan>, c: Call)
    requires Charged(b, start)
    ensures Charged(Made(b, c), start)
  {
    if c.run < |b.runs| {
      var after := Made(b, c);
      StepIsSound(b.runs[c.run], c.op);
      assert forall s | s in after.runs :: Sound(s);
      forall i | 0 <= i < |start|
        ensures Sum(after.runs, Charges(start[i].employee)) >= 0
        ensures after.rows[i] == Loans.Repaid(start[i], Sum(after.runs, Charges(start[i].employee)))
      {
        LoanStaysCharged(b, start[i], c, i);
      }
    }
  }

  lemma {:induction false} CallsStayCharged(b: Books, calls: seq<Call>)
    requires forall r | r in b.runs :: Sound(r) && r.loanUpdates == 0
    ensures Charged(MadeAll(b, calls), b.rows)
  {
    if calls == [] {
      forall i | 0 <= i < |b.rows| ensures Sum(b.runs, Charges(b.rows[i].employee)) == 0 {
        NothingCharged(b.runs, b.rows[i].employee);
      }
    } else {
      CallsStayCharged(b, calls[..|calls| - 1]);
      MadeStaysCharged(MadeAll(b, calls[..|calls| - 1]), b.rows, calls[|calls| - 1]);
    }
  }

  lemma {:induction false} NothingCharged(runs: seq<Run>, employee: nat)
    requires forall r | r in runs :: r.loanUpdates == 0
    ensures Sum(runs, Charges(employee)) == 0
  {
    if runs != [] {
      NothingCharged(runs[..|runs| - 1], employee);
    }
  }

  /** Over every sequence of calls on any number of runs, a loan opened before them has been repaid
      by exactly one instalment for each entry of its employee in a run that updated loans. */
  lemma RunsAmortiseExactly(b: Books, calls: seq<Call>, i: nat, business: nat, employee: nat, amount: int, monthly: int)
    requires forall r | r in b.runs :: Sound(r) && r.loanUpdates == 0
    requires i < |b.rows| && b.rows[i] == Loans.Opened(business, employee, amount, monthly)
    requires amount >= 1 && monthly >= 1
    ensures var after := MadeAll(b, calls);
            var n := Sum(after.runs, Charges(employee));
            && i < |after.rows|
            && after.rows[i].remaining == Max(0, amount - n * monthly)
            && after.rows[i].repaid + after.rows[i].remaining == amount
            && (after.rows[i].status == Loans.Completed <==> n * monthly >= amount)
  {
    CallsStayCharged(b, calls);
    ChargedAmortises(MadeAll(b, calls), b.rows, i, business, employee, amount, monthly);
  }

  lemma ChargedAmortises(
      b: Books, start: seq<Loans.Loan>, i: nat, business: nat, employee: nat, amount: int, monthly: int)
    requires Charged(b, start) && i < |start| && start[i] == Loans.Opened(business, employee, amount, monthly)
    requires amount >= 1 && monthly >= 1
    ensures var n := Sum(b.runs, Charges(employee));
            && i < |b.rows|
            && b.rows[i].remaining == Max(0, amount - n * monthly)
            && b.rows[i].repaid + b.rows[i].remaining == amount
            && (b.rows[i].status == Loans.Completed <==> n * monthly >= amount)
  {
    var n := Sum(b.runs, Charges(employee));
    assert n >= 0 && b.rows[i] == Loans.Repaid(start[i], n);
    Loans.ExactAmortisation(business, employee, amount, monthly, n);
  }
}
