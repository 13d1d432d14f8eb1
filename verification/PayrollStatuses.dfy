/** Where a payroll run stands after any sequence of calls, told from the calls: for every status, which
    calls lead to it and which lead away. */
module PayrollStatuses {
  import opened Common
  import opened PayrollRuns
  import opened PayrollHistories

  // ---- what a call does to a run ----

  /** Somebody rejects a pending run of the business, with a reason. */
  predicate Rejects(r: Run, op: Op)
  {
    op.Reject? && op.reason != "" && op.found && op.sameBusiness && r.status.PendingApproval? && !op.save.Lost?
  }

  /** Somebody reverses a completed run, with a reason. */
  predicate Reverses(r: Run, op: Op)
  {
    op.Reverse? && op.reason != "" && op.found && r.status.Completed? && !op.save.Lost?
  }

  predicate RejectsOrReverses(r: Run, op: Op) { Rejects(r, op) || Reverses(r, op) }

  /** A draft is submitted and no unverified account stands against it. */
  predicate Submittable(r: Run, op: Op)
  {
    op.Submit? && op.found && r.status.Draft? && op.policy.found && !(op.unverified && op.policy.paidPlan)
  }

  predicate AsksForApproval(r: Run, op: Op) { Submittable(r, op) && op.policy.requiresApproval && !op.save.Lost? }

  /** A business that requires no approval has the payout queued. */
  predicate ApprovesItself(r: Run, op: Op)
  {
    Submittable(r, op) && !op.policy.requiresApproval && !op.policy.autoProcess && op.queued && !op.save.Lost?
  }

  /** An approval of a pending run is saved. */
  predicate Signs(r: Run, op: Op)
  {
    op.Approve? && op.found && r.status.PendingApproval? && op.policy.found && !op.save.Lost?
  }

  /** The payout of an approved run could not be queued, and the approval is undone. */
  predicate TakesBack(r: Run, op: Op)
  {
    Signs(r, op) && op.save.Saved? && !op.policy.autoProcess && !op.queued && !op.undo.Lost?
  }

  /** The call gets to process the run, and the marking save takes effect. */
  predicate Starts(r: Run, op: Op)
  {
    Processed(r, op).Some? && var (q, w) := Processed(r, op).value; w.found && Processable(q.status) && !w.marking.Lost?
  }

  predicate SignsForGood(r: Run, op: Op) { Signs(r, op) && !TakesBack(r, op) }

  predicate LeadsToApproved(r: Run, op: Op) { ApprovesItself(r, op) || (SignsForGood(r, op) && !Starts(r, op)) }

  predicate DecidesPending(r: Run, op: Op) { Rejects(r, op) || SignsForGood(r, op) }

  predicate LeavesDraft(r: Run, op: Op) { AsksForApproval(r, op) || ApprovesItself(r, op) || Starts(r, op) }

  /** The call sends the batch of the run. */
  predicate SendsBatch(r: Run, op: Op)
  {
    Starts(r, op) && var (q, w) := Processed(r, op).value; w.marking.Saved? && Requests(q.id, q.entries) != []
  }

  /** What came of the batch is saved. */
  predicate Closes(r: Run, op: Op) { SendsBatch(r, op) && !Processed(r, op).value.1.closing.Lost? }

  predicate Paid(r: Run, op: Op)
    requires Processed(r, op).Some?
  {
    var (q, w) := Processed(r, op).value; CountsAsPaid(w.batch, q.id, |Requests(q.id, q.entries)|)
  }

  predicate Completes(r: Run, op: Op) { Closes(r, op) && Paid(r, op) }

  predicate Fails(r: Run, op: Op) { Closes(r, op) && !Paid(r, op) }

  predicate Never(r: Run, op: Op) { false }

  /** What a call makes of the status of a run, status by status. */
  predicate StatusTold(r: Run, op: Op, s: Status)
  {
    && (s.Draft? <==> r.status.Draft? && !LeavesDraft(r, op))
    && (s.PendingApproval? <==> AsksForApproval(r, op) || (r.status.PendingApproval? && !DecidesPending(r, op)))
    && (s.Approved? <==> LeadsToApproved(r, op) || (r.status.Approved? && !Starts(r, op)))
    && (s.Processing? <==> Sticks(r, op) || r.status.Processing?)
    && (s.Completed? <==> Completes(r, op) || (r.status.Completed? && !Reverses(r, op)))
    && (s.Failed? <==> Fails(r, op) || r.status.Failed?)
    && (s.Rejected? <==> RejectsOrReverses(r, op) || r.status.Rejected?)
  }

  lemma StepStatus(r: Run, op: Op)
    ensures StatusTold(r, op, Step(r, op).0.status)
  {
    match op
    case Submit(_, _, _, _, _, _) => SubmitTold(r, op);
    case Approve(_, _, _, _, _, _) => ApproveTold(r, op);
    case ProcessNow(_) => ProcessTold(r, op);
    case Fire(_, _) => ProcessTold(r, op);
    case _ => OtherTold(r, op);
  }

  lemma SubmitTold(r: Run, op: Op)
    requires op.Submit?
    ensures StatusTold(r, op, Step(r, op).0.status)
  {
    SubmitStatus(r, op);
    ProcessStatus(r, op.w);
  }

  lemma ApproveTold(r: Run, op: Op)
    requires op.Approve?
    ensures StatusTold(r, op, Step(r, op).0.status)
  {
    ApproveStatus(r, op);
    ProcessStatus(r.(status := Approved), op.w);
  }

  lemma ProcessTold(r: Run, op: Op)
    requires op.ProcessNow? || op.Fire?
    ensures StatusTold(r, op, Step(r, op).0.status)
  {
    ProcessStatus(r, op.w);
  }

  lemma OtherTold(r: Run, op: Op)
    requires op.Reject? || op.Amend? || op.Reverse?
    ensures StatusTold(r, op, Step(r, op).0.status)
  {
  }

  /** Processing, status by status. */
  lemma ProcessStatus(r: Run, w: Weather)
    ensures var s := Process(r, w).0.status;
            var starts := w.found && Processable(r.status) && !w.marking.Lost?;
            var closes := starts && w.marking.Saved? && Requests(r.id, r.entries) != [] && !w.closing.Lost?;
            var paid := CountsAsPaid(w.batch, r.id, |Requests(r.id, r.entries)|);
            s == if !starts then r.status else if LeftStuck(r, w) then Processing else if paid then Completed else Failed
  {
  }

  lemma SubmitStatus(r: Run, op: Op)
    requires op.Submit?
    ensures var s := Step(r, op).0.status;
            && (AsksForApproval(r, op) ==> s.PendingApproval?) && (ApprovesItself(r, op) ==> s.Approved?)
            && (Processed(r, op).Some? ==> s == Process(r, op.w).0.status)
            && (!AsksForApproval(r, op) && !ApprovesItself(r, op) && Processed(r, op).None? ==> s == r.status)
  {
  }

  lemma ApproveStatus(r: Run, op: Op)
    requires op.Approve?
    ensures var s := Step(r, op).0.status;
            && (!Signs(r, op) || TakesBack(r, op) ==> s == r.status)
            && (SignsForGood(r, op) && Processed(r, op).None? ==> s.Approved?)
            && (Processed(r, op).Some? ==> s == Process(r.(status := Approved), op.w).0.status)
  {
  }

  // ---- over every sequence of calls ----

  /** Call `k` did this to the run, and none since did that. */
  ghost predicate LastBy(r: Run, ops: seq<Op>, k: nat, did: (Run, Op) -> bool, undid: (Run, Op) -> bool)
    requires k < |ops|
  {
    did(Lived(r, ops[..k]), ops[k]) && forall j | k < j < |ops| :: !undid(Lived(r, ops[..j]), ops[j])
  }

  /** One of the calls did this to the run, and none since did that. */
  ghost predicate Since(r: Run, ops: seq<Op>, did: (Run, Op) -> bool, undid: (Run, Op) -> bool)
  {
    exists k: nat :: k < |ops| && LastBy(r, ops, k, did, undid)
  }

  lemma LastByAppend(r: Run, ops: seq<Op>, op: Op, k: nat, did: (Run, Op) -> bool, undid: (Run, Op) -> bool)
    requires k < |ops|
    ensures LastBy(r, ops + [op], k, did, undid) <==> LastBy(r, ops, k, did, undid) && !undid(Lived(r, ops), op)
  {
    var all, n := ops + [op], |ops|;
    assert all[..n] == ops && all[n] == op;
    forall j | 0 <= j < n ensures all[..j] == ops[..j] && all[j] == ops[j] {}
    if LastBy(r, all, k, did, undid) {
      forall j | k < j < n ensures !undid(Lived(r, ops[..j]), ops[j]) {
        assert !undid(Lived(r, all[..j]), all[j]);
      }
      assert !undid(Lived(r, all[..n]), all[n]);
    }
  }

  lemma SinceAppend(r: Run, ops: seq<Op>, op: Op, did: (Run, Op) -> bool, undid: (Run, Op) -> bool)
    ensures Since(r, ops + [op], did, undid) <==>
      did(Lived(r, ops), op) || (Since(r, ops, did, undid) && !undid(Lived(r, ops), op))
  {
    var all, n := ops + [op], |ops|;
    assert all[..n] == ops && all[n] == op;
    assert LastBy(r, all, n, did, undid) <==> did(Lived(r, ops), op);
    forall k: nat | k < n
      ensures LastBy(r, all, k, did, undid) <==> LastBy(r, ops, k, did, undid) && !undid(Lived(r, ops), op)
    {
      LastByAppend(r, ops, op, k, did, undid);
    }
  }

  /** What each call brings about by `did` and ends by `undid` holds afterwards exactly when some call
      did it and none since undid it. */
  lemma {:induction false} HoldsIffSince(r: Run, ops: seq<Op>, holds: Run -> bool, did: (Run, Op) -> bool, undid: (Run, Op) -> bool)
    requires !holds(r)
    requires forall q, op :: holds(Step(q, op).0) <==> did(q, op) || (holds(q) && !undid(q, op))
    ensures holds(Lived(r, ops)) <==> Since(r, ops, did, undid)
  {
    if ops != [] {
      var front, op := ops[..|ops| - 1], ops[|ops| - 1];
      assert front + [op] == ops;
      HoldsIffSince(r, front, holds, did, undid);
      SinceAppend(r, front, op, did, undid);
      assert holds(Step(Lived(r, front), op).0) <==> did(Lived(r, front), op) || (holds(Lived(r, front)) && !undid(Lived(r, front), op));
    }
  }

  lemma EveryStepStatus()
    ensures forall q, op {:trigger Step(q, op)} :: StatusTold(q, op, Step(q, op).0.status)
  {
    forall q, op ensures StatusTold(q, op, Step(q, op).0.status) {
      StepStatus(q, op);
    }
  }

  /** The status of a run after any sequence of calls: it stands where the last call that moved it left
      it, and each status has its own calls that lead there and that lead away. */
  lemma StatusIff(id: nat, entries: seq<PayEntry>, ops: seq<Op>)
    ensures var r := Created(id, entries);
            var s := Lived(r, ops).status;
            && (s.Draft? <==> !Since(r, ops, LeavesDraft, Never))
            && (s.PendingApproval? <==> Since(r, ops, AsksForApproval, DecidesPending))
            && (s.Approved? <==> Since(r, ops, LeadsToApproved, Starts))
            && (s.Processing? <==> Since(r, ops, Sticks, Never))
            && (s.Completed? <==> Since(r, ops, Completes, Reverses))
            && (s.Failed? <==> Since(r, ops, Fails, Never))
            && (s.Rejected? <==> Since(r, ops, RejectsOrReverses, Never))
  {
    var r := Created(id, entries);
    EveryStepStatus();
    HoldsIffSince(r, ops, (q: Run) => !q.status.Draft?, LeavesDraft, Never);
    HoldsIffSince(r, ops, (q: Run) => q.status.PendingApproval?, AsksForApproval, DecidesPending);
    HoldsIffSince(r, ops, (q: Run) => q.status.Approved?, LeadsToApproved, Starts);
    HoldsIffSince(r, ops, (q: Run) => q.status.Processing?, Sticks, Never);
    HoldsIffSince(r, ops, (q: Run) => q.status.Completed?, Completes, Reverses);
    HoldsIffSince(r, ops, (q: Run) => q.status.Failed?, Fails, Never);
    HoldsIffSince(r, ops, (q: Run) => q.status.Rejected?, RejectsOrReverses, Never);
  }

  // ---- what a rejection, a disbursement and an approval come to ----

  lemma {:induction false} RejectedForever(r: Run, ops: seq<Op>)
    requires r.status.Rejected?
    ensures Lived(r, ops) == r
  {
    if ops != [] {
      RejectedForever(r, ops[..|ops| - 1]);
    }
  }

  /** A run rejected while it was pending stays rejected, and is never paid whatever follows; one that
      was reversed stays rejected too, and its payment stays made. */
  lemma RejectedIsNeverPaid(id: nat, entries: seq<PayEntry>, ops: seq<Op>, k: nat)
    requires k < |ops| && RejectsOrReverses(Lived(Created(id, entries), ops[..k]), ops[k])
    ensures var r := Lived(Created(id, entries), ops);
            && r.status.Rejected?
            && (Rejects(Lived(Created(id, entries), ops[..k]), ops[k]) ==> r.disbursed == 0 && r.loanUpdates == 0)
            && (Reverses(Lived(Created(id, entries), ops[..k]), ops[k]) ==> r.disbursed == 1)
  {
    var before := Lived(Created(id, entries), ops[..k]);
    AtMostOnceDisbursed(id, entries, ops[..k]);
    LivedNext(Created(id, entries), ops, k);
    RejectedForever(Step(before, ops[k]).0, ops[k + 1..]);
  }

  lemma StepDisburses(r: Run, op: Op)
    ensures Step(r, op).0.disbursed == r.disbursed + if SendsBatch(r, op) then 1 else 0
  {
  }

  /** A run has been disbursed if and only if some call got to send its batch. */
  lemma DisbursedIff(id: nat, entries: seq<PayEntry>, ops: seq<Op>)
    ensures var r := Created(id, entries); Lived(r, ops).disbursed == 1 <==> Since(r, ops, SendsBatch, Never)
  {
    forall q, op {
      StepDisburses(q, op);
    }
    AtMostOnceDisbursed(id, entries, ops);
    HoldsIffSince(Created(id, entries), ops, (q: Run) => q.disbursed >= 1, SendsBatch, Never);
  }

  /** The payout of an approved run is queued: by the submission of a business that requires no approval,
      whatever becomes of its save, or by an approval. */
  predicate Queues(r: Run, op: Op)
  {
    || (Submittable(r, op) && !op.policy.requiresApproval && !op.policy.autoProcess && op.queued)
    || (Signs(r, op) && op.save.Saved? && !op.policy.autoProcess && op.queued)
  }

  /** How many of the calls queued a payout. */
  function TimesQueued(r: Run, ops: seq<Op>): nat
  {
    if ops == [] then 0
    else
      var front, op := ops[..|ops| - 1], ops[|ops| - 1];
      TimesQueued(r, front) + if Queues(Lived(r, front), op) then 1 else 0
  }

  lemma {:induction false} JobsAreQueued(r: Run, ops: seq<Op>)
    ensures Lived(r, ops).jobs == r.jobs + TimesQueued(r, ops)
  {
    if ops != [] {
      JobsAreQueued(r, ops[..|ops| - 1]);
      StepQueues(Lived(r, ops[..|ops| - 1]), ops[|ops| - 1]);
    }
  }

  lemma StepQueues(r: Run, op: Op)
    ensures Step(r, op).0.jobs == r.jobs + if Queues(r, op) then 1 else 0
  {
  }

  // ---- whether approval is needed ----

  /** Every submission meets a business that requires approval. */
  predicate ApprovalRequired(ops: seq<Op>)
  {
    forall k | 0 <= k < |ops| && ops[k].Submit? :: ops[k].policy.requiresApproval
  }

  /** A draft is processed at once, past any approval. */
  predicate SkipsApproval(r: Run, op: Op) { r.status.Draft? && op.ProcessNow? && Starts(r, op) }

  predicate SignsOrSkips(r: Run, op: Op) { Signs(r, op) || SkipsApproval(r, op) }

  /** Where approval is required, a run that no call has signed, nor processed while it was a draft, has
      not got past draft, pending and rejected, and has not been paid. */
  lemma {:induction false} UnsignedIsUnpaid(id: nat, entries: seq<PayEntry>, ops: seq<Op>)
    requires ApprovalRequired(ops) && !Since(Created(id, entries), ops, SignsOrSkips, Never)
    ensures var r := Lived(Created(id, entries), ops);
            (r.status.Draft? || r.status.PendingApproval? || r.status.Rejected?) && r.disbursed == 0
  {
    var r := Created(id, entries);
    if ops != [] {
      var front, op := ops[..|ops| - 1], ops[|ops| - 1];
      assert front + [op] == ops;
      SinceAppend(r, front, op, SignsOrSkips, Never);
      UnsignedIsUnpaid(id, entries, front);
      UnsignedStep(Lived(r, front), op);
    }
  }

  lemma UnsignedStep(r: Run, op: Op)
    requires op.Submit? ==> op.policy.requiresApproval
    requires (r.status.Draft? || r.status.PendingApproval? || r.status.Rejected?) && !SignsOrSkips(r, op)
    ensures var q := Step(r, op).0;
            (q.status.Draft? || q.status.PendingApproval? || q.status.Rejected?) && q.disbursed == r.disbursed
  {
  }

  lemma OneCall(r: Run, ops: seq<Op>, op: Op, did: (Run, Op) -> bool)
    requires ops == [] + [op]
    ensures Lived(r, ops) == Step(r, op).0
    ensures Since(r, ops, did, Never) <==> did(r, op)
  {
    var none: seq<Op> := [];
    assert Lived(r, none) == r && !Since(r, none, did, Never);
    SinceAppend(r, none, op, did, Never);
    OneMore(r, none, op);
  }

  /** And a draft can indeed be paid that way although its business requires approval: nothing asks. */
  lemma DraftIsPaidUnapproved(r: Run, ops: seq<Op>, op: Op)
    requires r.status.Draft? && r.disbursed == 0 && ops == [] + [op]
    requires op.ProcessNow? && SendsBatch(r, op)
    ensures ApprovalRequired(ops) && Lived(r, ops).disbursed == 1 && !Since(r, ops, Signs, Never)
  {
    OneCall(r, ops, op, Signs);
    StepDisburses(r, op);
  }

  /** Any draft with somebody to pay can be. */
  lemma AnyDraftIsSent(id: nat, entries: seq<PayEntry>, batch: BatchReply)
    requires Requests(id, entries) != []
    ensures SendsBatch(Created(id, entries), ProcessNow(Weather(true, Saved, batch, Saved)))
  {
  }

  // ---- what the caller is told ----

  /** The processing gets to its end: whether it paid the run or not, what came of it is saved. */
  predicate Processes(r: Run, w: Weather)
  {
    && w.found && Processable(r.status) && w.marking.Saved? && Requests(r.id, r.entries) != []
    && w.batch.BatchReport? && w.closing.Saved?
  }

  /** The call reports success: what it set out to save is saved, or there was nothing to do. */
  predicate Reports(r: Run, op: Op)
  {
    if Processed(r, op).Some? then Processes(Processed(r, op).value.0, Processed(r, op).value.1)
    else match op
      case Submit(_, _, _, _, save, _) => (AsksForApproval(r, op) || ApprovesItself(r, op)) && save.Saved?
      case Approve(_, _, save, queued, _, _) => Signs(r, op) && save.Saved? && queued
      case Reject(_, _, _, save) => Rejects(r, op) && save.Saved?
      case Amend(_, _, save) => Amends(r, op) && save.Saved?
      case ProcessNow(_) => false
      case Reverse(_, _, save) => Reverses(r, op) && save.Saved?
      case Fire(found, _) => found
  }

  lemma ReportsIff(r: Run, op: Op)
    ensures Step(r, op).1 <==> Reports(r, op)
  {
  }

  /** A call that reports success has done what it is for. */
  lemma SuccessIsDone(r: Run, op: Op)
    requires Step(r, op).1
    ensures var q := Step(r, op).0;
            match op
            case Submit(_, policy, _, _, _, _) =>
              if policy.requiresApproval then q.status.PendingApproval?
              else if policy.autoProcess then q.disbursed == r.disbursed + 1 && (q.status.Completed? || q.status.Failed?)
              else q.status.Approved? && q.jobs == r.jobs + 1
            case Approve(_, policy, _, _, _, _) =>
              if policy.autoProcess then q.disbursed == r.disbursed + 1 && (q.status.Completed? || q.status.Failed?)
              else q.status.Approved? && q.jobs == r.jobs + 1
            case Reject(_, _, _, _) => q == r.(status := Rejected)
            case Amend(_, entries, _) => entries.Some? && q == r.(entries := r.entries + entries.value)
            case ProcessNow(_) => q.disbursed == r.disbursed + 1 && (q.status.Completed? || q.status.Failed?)
            case Reverse(_, _, _) => q == r.(status := Rejected)
            case Fire(_, _) => q == r || (q.disbursed == r.disbursed + 1 && (q.status.Completed? || q.status.Failed?))
  {
  }
}
