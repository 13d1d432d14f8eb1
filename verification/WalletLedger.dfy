/** The double-entry ledger: every posting balances, and reconciliation against the wallet
    finds exactly what failed to be posted. */
module WalletLedger {
  import opened Common
  import opened WalletRows
  import opened WalletProtocol
  import opened WalletConservation

  /** Lines 2k and 2k+1 form one posting. */
  predicate PairAt(ledger: seq<Entry>, k: nat)
    requires 2 * k + 1 < |ledger|
  {
    var d, c := ledger[2 * k], ledger[2 * k + 1];
    d.side.Debit? && c.side.Credit? && d.biz == c.biz && d.amount == c.amount && d.account != c.account
    && d.txn == c.txn == 2 * k
  }

  predicate Paired(ledger: seq<Entry>)
  {
    |ledger| % 2 == 0 && forall k: nat | k < |ledger| / 2 :: PairAt(ledger, k)
  }

  function DebitOf(b: BusinessId): Entry -> int { (e: Entry) => if e.biz == b && e.side.Debit? then e.amount else 0 }
  function CreditOf(b: BusinessId): Entry -> int { (e: Entry) => if e.biz == b && e.side.Credit? then e.amount else 0 }

  lemma SplitPair(ledger: seq<Entry>)
    requires Paired(ledger) && ledger != []
    ensures |ledger| >= 2 && Paired(ledger[..|ledger| - 2]) && PairAt(ledger, (|ledger| - 2) / 2)
    ensures ledger == (ledger[..|ledger| - 2] + [ledger[|ledger| - 2]]) + [ledger[|ledger| - 1]]
  {
    var front := ledger[..|ledger| - 2];
    forall k: nat | k < |front| / 2 ensures PairAt(front, k) {
      assert PairAt(ledger, k);
    }
  }

  /** In a paired ledger the debits of every business equal its credits. */
  lemma {:induction false} DebitsEqualCredits(ledger: seq<Entry>, b: BusinessId)
    requires Paired(ledger)
    ensures Sum(ledger, DebitOf(b)) == Sum(ledger, CreditOf(b))
    decreases |ledger|
  {
    if ledger != [] {
      SplitPair(ledger);
      var n := |ledger| - 2;
      var front, d, c := ledger[..n], ledger[n], ledger[n + 1];
      DebitsEqualCredits(front, b);
      SumAppend(front, d, DebitOf(b));
      SumAppend(front + [d], c, DebitOf(b));
      SumAppend(front, d, CreditOf(b));
      SumAppend(front + [d], c, CreditOf(b));
    }
  }

  /** One statement appends nothing or one whole posting. */
  lemma StepAppendsPosting(s: Store, c: Call, o: Outcome)
    requires !c.pc.Done?
    ensures var l, l' := s.ledger, StepCall(s, c, o).0.ledger;
            l' == l || exists debit, credit, amount ::
              debit != credit && l' == l + Posting(c.biz, |l|, debit, credit, amount)
  {
    if (c.pc.Post? || c.pc.PostFee?) && o.Good? {
      var amount := if c.pc.Post? then c.amount else c.fee;
      var credit := if c.pc.PostFee? then RevenueAccount else ExternalAccount;
      if Debits(c.op) || c.pc.PostFee? {
        assert StepCall(s, c, o).0.ledger == s.ledger + Posting(c.biz, |s.ledger|, WalletAccount, credit, amount);
      } else {
        assert StepCall(s, c, o).0.ledger == s.ledger + Posting(c.biz, |s.ledger|, ExternalAccount, WalletAccount, amount);
      }
    }
  }

  lemma AppendKeepsPaired(l: seq<Entry>, b: BusinessId, debit: Account, credit: Account, amount: nat)
    requires Paired(l) && debit != credit
    ensures Paired(l + Posting(b, |l|, debit, credit, amount))
  {
    var l' := l + Posting(b, |l|, debit, credit, amount);
    forall k: nat | k < |l'| / 2 ensures PairAt(l', k) {
      if k < |l| / 2 {
        assert PairAt(l, k);
      }
    }
  }

  /** Double entry holds in every reachable system: debits equal credits per pair and per business. */
  lemma {:induction false} LedgerStaysPaired(y: System, schedule: seq<Label>)
    requires Paired(y.store.ledger) && Legal(y, schedule)
    ensures Paired(Run(y, schedule).store.ledger)
    decreases |schedule|
  {
    if schedule != [] {
      var z := Next(y, schedule[0]);
      if schedule[0].Act? {
        var c := y.calls[schedule[0].index];
        StepAppendsPosting(y.store, c, schedule[0].outcome);
        if z.store.ledger != y.store.ledger {
          var debit, credit, amount :| debit != credit
            && z.store.ledger == y.store.ledger + Posting(c.biz, |y.store.ledger|, debit, credit, amount);
          AppendKeepsPaired(y.store.ledger, c.biz, debit, credit, amount);
        }
      }
      LedgerStaysPaired(z, schedule[1..]);
    }
  }

  /** What Reconcile reports: wallet balance minus ledger balance. */
  function Discrepancy(s: Store, b: BusinessId): int
    requires b in s.rows
  {
    s.rows[b].balance - LedgerBalance(s, b)
  }

  /** Amounts recorded in the transaction table whose ledger posting is missing. */
  function MissedDeposits(b: BusinessId): Call -> int
  {
    (c: Call) => if c.biz == b && c.op.Deposit? then c.wrote - c.posted else 0
  }

  function MissedDebits(b: BusinessId): Call -> int
  {
    (c: Call) => if c.biz == b && !c.op.Deposit? then c.posted - c.wrote else 0
  }

  /** Each missed amount is between nothing and the whole of what the call moves. */
  lemma MissedIsPartOfTheCall(c: Call, b: BusinessId)
    requires CallOk(c) && c.inserted
    ensures 0 <= MissedDeposits(b)(c) <= c.amount
    ensures 0 <= MissedDebits(b)(c) <= c.amount + c.fee
  {
  }

  /** At every moment the discrepancy has grown, since the opening, by what is in flight or
      stranded, plus the deposits missing from the ledger, minus the withdrawals and fees missing. */
  lemma DiscrepancyIsWhatFailed(opening: Store, schedule: seq<Label>, b: BusinessId)
    requires UniqueReferences(opening) && Legal(System(opening, []), schedule) && b in opening.rows
    ensures var y := Run(System(opening, []), schedule);
            b in y.store.rows &&
            Discrepancy(y.store, b) == Discrepancy(opening, b) + Sum(y.calls, Unrecorded(b))
                                       + Sum(y.calls, MissedDeposits(b)) - Sum(y.calls, MissedDebits(b))
  {
    Reachable(opening, schedule);
    var y := Run(System(opening, []), schedule);
    SumDifference(y.calls, AppliedBy(b), WroteBy(b), Unrecorded(b));
    SumDifference(y.calls, WroteBy(b), PostedBy(b), Unposted(b));
    SumDifference(y.calls, MissedDeposits(b), MissedDebits(b), Unposted(b));
  }

  /** Every posting of a recorded call went through. */
  predicate AllPosted(y: System) { forall c | c in y.calls :: c.inserted ==> c.posted == c.wrote }

  /** What a call should have posted where it stands. */
  function Owed(c: Call): int
  {
    if !c.inserted || c.pc.Post? then 0 else if c.pc.PostFee? then 0 - c.amount else c.wrote
  }

  predicate UpToDate(c: Call) { c.posted == Owed(c) }

  /** The posting of an amount, or of a fee, fails. */
  predicate LosesPosting(c: Call, o: Outcome)
  {
    !o.Good? && ((c.pc.Post? && c.amount > 0) || c.pc.PostFee?)
  }

  lemma RecordUpToDateIff(s: Store, c: Call, o: Outcome)
    requires CallOk(c) && (c.pc.Insert? || c.pc.Retry? || c.pc.Post? || c.pc.PostFee?)
    ensures UpToDate(StepCall(s, c, o).1) <==> UpToDate(c) && !LosesPosting(c, o)
  {
  }

  /** No other statement inserts or posts. */
  lemma OtherKeepsPosted(s: Store, c: Call, o: Outcome)
    requires CallOk(c) && !c.pc.Done? && !(c.pc.Insert? || c.pc.Retry? || c.pc.Post? || c.pc.PostFee?)
    ensures var c' := StepCall(s, c, o).1;
            && c'.posted == c.posted && c'.inserted == c.inserted && c'.wrote == c.wrote
            && !c'.pc.Post? && !c'.pc.PostFee?
  {
    if SendsUpdate(c.pc) {
      UpdateKeepsPosted(s, c, o);
    }
  }

  lemma UpdateKeepsPosted(s: Store, c: Call, o: Outcome)
    requires SendsUpdate(c.pc)
    ensures var c' := StepCall(s, c, o).1;
            && c'.posted == c.posted && c'.inserted == c.inserted && c'.wrote == c.wrote
            && !c'.pc.Post? && !c'.pc.PostFee?
  {
  }

  lemma StepUpToDateIff(s: Store, c: Call, o: Outcome)
    requires CallOk(c) && !c.pc.Done?
    ensures UpToDate(StepCall(s, c, o).1) <==> UpToDate(c) && !LosesPosting(c, o)
  {
    if c.pc.Insert? || c.pc.Retry? || c.pc.Post? || c.pc.PostFee? {
      RecordUpToDateIff(s, c, o);
    } else {
      OtherKeepsPosted(s, c, o);
    }
  }

  predicate Current(y: System) { forall c | c in y.calls :: UpToDate(c) }

  predicate Loses(y: System, l: Label)
    requires Enabled(y, l)
  {
    l.Act? && LosesPosting(y.calls[l.index], l.outcome)
  }

  /** No step of the schedule fails to post. */
  predicate AlwaysPosts(y: System, schedule: seq<Label>)
    requires Legal(y, schedule)
    decreases |schedule|
  {
    schedule != [] ==> !Loses(y, schedule[0]) && AlwaysPosts(Next(y, schedule[0]), schedule[1..])
  }

  lemma CurrentStepIff(y: System, l: Label)
    requires Enabled(y, l) && forall c | c in y.calls :: CallOk(c)
    ensures Current(Next(y, l)) <==> Current(y) && !Loses(y, l)
  {
    match l
    case Arrive(op, b, r, amount, fee) =>
      var c := NewCall(op, b, r, amount, fee);
      assert forall d :: d in Next(y, l).calls <==> d in y.calls || d == c;
    case Act(i, o) =>
      var calls := Next(y, l).calls;
      StepUpToDateIff(y.store, y.calls[i], o);
      assert calls[i] == StepCall(y.store, y.calls[i], o).1;
      if Current(Next(y, l)) {
        assert calls[i] in calls;
        forall c | c in y.calls ensures UpToDate(c) {
          var k :| 0 <= k < |y.calls| && y.calls[k] == c;
          assert k != i ==> c == calls[k] && c in calls;
        }
      }
    case Expire(_) =>
  }

  lemma {:induction false} CurrentRunIff(opening: Store, y: System, schedule: seq<Label>)
    requires Invariant(opening, y) && Legal(y, schedule)
    ensures Current(Run(y, schedule)) <==> Current(y) && AlwaysPosts(y, schedule)
    decreases |schedule|
  {
    if schedule != [] {
      InvariantStep(opening, y, schedule[0]);
      CurrentStepIff(y, schedule[0]);
      CurrentRunIff(opening, Next(y, schedule[0]), schedule[1..]);
    }
  }

  /** When the calls of a schedule have all returned, everything recorded has been posted if and only
      if no posting of an amount or a fee failed on the way. */
  lemma AllPostedIff(opening: Store, schedule: seq<Label>)
    requires UniqueReferences(opening) && Legal(System(opening, []), schedule)
    requires Quiescent(Run(System(opening, []), schedule))
    ensures AllPosted(Run(System(opening, []), schedule)) <==> AlwaysPosts(System(opening, []), schedule)
  {
    var y := Run(System(opening, []), schedule);
    Reachable(opening, schedule);
    Reachable(opening, []);
    CurrentRunIff(opening, System(opening, []), schedule);
    CurrentAtRest(y);
  }

  lemma CurrentAtRest(y: System)
    requires Quiescent(y) && forall c | c in y.calls :: CallOk(c)
    ensures Current(y) <==> AllPosted(y)
  {
    forall c | c in y.calls ensures UpToDate(c) <==> (c.inserted ==> c.posted == c.wrote) {
      assert CallOk(c) && c.pc.Done?;
    }
  }

  /** At rest, when no step tore and no step failed to post, the books agree with the wallet. */
  lemma BooksAgreeAtRest(opening: Store, schedule: seq<Label>, b: BusinessId)
    requires UniqueReferences(opening) && Legal(System(opening, []), schedule) && b in opening.rows
    requires NeverTears(System(opening, []), schedule) && AlwaysPosts(System(opening, []), schedule)
    requires Quiescent(Run(System(opening, []), schedule))
    ensures var y := Run(System(opening, []), schedule);
            b in y.store.rows && Discrepancy(y.store, b) == Discrepancy(opening, b)
  {
    DiscrepancyIsWhatFailed(opening, schedule, b);
    Reachable(opening, schedule);
    SoundRunIff(opening, System(opening, []), schedule);
    AllPostedIff(opening, schedule);
    NothingUnrecordedAtRest(Run(System(opening, []), schedule), b);
    NothingMissed(Run(System(opening, []), schedule), b);
  }

  lemma NothingMissed(y: System, b: BusinessId)
    requires AllPosted(y) && forall c | c in y.calls :: CallOk(c)
    ensures Sum(y.calls, MissedDeposits(b)) == 0 == Sum(y.calls, MissedDebits(b))
  {
    var zero := (c: Call) => 0;
    SumZero(y.calls, zero);
    SumCongruent(y.calls, MissedDeposits(b), zero);
    SumCongruent(y.calls, MissedDebits(b), zero);
  }

  // ---- account by account ----

  /** Credits minus debits of a business on an account. */
  function OnAccount(b: BusinessId, a: Account): Entry -> int
  {
    (e: Entry) => if e.biz != b || e.account != a then 0 else if e.side.Credit? then e.amount else -(e.amount as int)
  }

  /** What a step of the call posts to an account: a deposit comes from outside into the wallet, a payout
      goes the other way, and a fee goes from the wallet to revenue. */
  function PostedTo(c: Call, o: Outcome, b: BusinessId, a: Account): int
  {
    if !o.Good? || c.biz != b then 0
    else if c.pc.Post? then
      var inward := if c.op.Deposit? then c.amount else -(c.amount as int);
      match a case WalletAccount => inward case ExternalAccount => -inward case RevenueAccount => 0
    else if c.pc.PostFee? then
      match a case WalletAccount => -(c.fee as int) case ExternalAccount => 0 case RevenueAccount => c.fee
    else 0
  }

  /** The sum over the steps of a schedule. */
  function PostedDuring(y: System, schedule: seq<Label>, b: BusinessId, a: Account): int
    requires Legal(y, schedule)
    decreases |schedule|
  {
    if schedule == [] then 0
    else
      var l := schedule[0];
      (if l.Act? then PostedTo(y.calls[l.index], l.outcome, b, a) else 0) + PostedDuring(Next(y, l), schedule[1..], b, a)
  }

  lemma PairOnAccount(ledger: seq<Entry>, d: Entry, k: Entry, b: BusinessId, a: Account)
    ensures Sum(ledger + [d, k], OnAccount(b, a)) == Sum(ledger, OnAccount(b, a)) + OnAccount(b, a)(d) + OnAccount(b, a)(k)
  {
    SumAppend(ledger, d, OnAccount(b, a));
    SumAppend(ledger + [d], k, OnAccount(b, a));
    assert (ledger + [d]) + [k] == ledger + [d, k];
  }

  lemma StepPosts(s: Store, c: Call, o: Outcome, b: BusinessId, a: Account)
    requires CallOk(c) && !c.pc.Done?
    ensures Sum(StepCall(s, c, o).0.ledger, OnAccount(b, a)) == Sum(s.ledger, OnAccount(b, a)) + PostedTo(c, o, b, a)
  {
    if c.pc.Post? || c.pc.PostFee? {
      var debit := if c.pc.PostFee? || Debits(c.op) then WalletAccount else ExternalAccount;
      var credit := if c.pc.PostFee? then RevenueAccount else if Debits(c.op) then ExternalAccount else WalletAccount;
      var amount := if c.pc.Post? then c.amount else c.fee;
      PairOnAccount(s.ledger, Entry(c.biz, |s.ledger|, debit, Side.Debit, amount), Entry(c.biz, |s.ledger|, credit, Side.Credit, amount), b, a);
    } else {
      OtherPostNothing(s, c, o);
    }
  }

  lemma OtherPostNothing(s: Store, c: Call, o: Outcome)
    requires !c.pc.Done? && !c.pc.Post? && !c.pc.PostFee?
    ensures StepCall(s, c, o).0.ledger == s.ledger
  {
  }

  lemma {:induction false} LedgerFollowsPostings(opening: Store, y: System, schedule: seq<Label>, b: BusinessId, a: Account)
    requires Invariant(opening, y) && Legal(y, schedule)
    ensures Sum(Run(y, schedule).store.ledger, OnAccount(b, a))
         == Sum(y.store.ledger, OnAccount(b, a)) + PostedDuring(y, schedule, b, a)
    decreases |schedule|
  {
    if schedule != [] {
      if schedule[0].Act? {
        assert CallOk(y.calls[schedule[0].index]);
        StepPosts(y.store, y.calls[schedule[0].index], schedule[0].outcome, b, a);
      }
      InvariantStep(opening, y, schedule[0]);
      LedgerFollowsPostings(opening, Next(y, schedule[0]), schedule[1..], b, a);
    }
  }

  /** At every moment of every interleaving each account of each business has moved by what the steps so
      far posted to it. */
  lemma EveryAccountIsPosted(opening: Store, schedule: seq<Label>, b: BusinessId, a: Account)
    requires UniqueReferences(opening) && Legal(System(opening, []), schedule)
    ensures Sum(Run(System(opening, []), schedule).store.ledger, OnAccount(b, a))
         == Sum(opening.ledger, OnAccount(b, a)) + PostedDuring(System(opening, []), schedule, b, a)
  {
    Reachable(opening, []);
    LedgerFollowsPostings(opening, System(opening, []), schedule, b, a);
  }

  /** What a call has moved to an account where it stands, when none of its postings failed. */
  function DueTo(b: BusinessId, a: Account): Call -> int
  {
    (c: Call) =>
      if c.biz != b || !c.inserted || c.pc.Post? then 0
      else
        var inward, fee := if c.op.Deposit? then c.amount else -(c.amount as int), if c.pc.PostFee? then 0 else c.fee;
        match a case WalletAccount => inward - fee case ExternalAccount => -inward case RevenueAccount => fee
  }

  lemma StepIsDue(s: Store, c: Call, o: Outcome, b: BusinessId, a: Account)
    requires CallOk(c) && !c.pc.Done? && !LosesPosting(c, o)
    ensures DueTo(b, a)(StepCall(s, c, o).1) == DueTo(b, a)(c) + PostedTo(c, o, b, a)
  {
    StepKeepsNames(s, c, o);
    if !c.pc.Insert? && !c.pc.Retry? && !c.pc.Post? && !c.pc.PostFee? {
      OtherKeepsPosted(s, c, o);
      OtherKeepsFee(s, c, o);
    }
  }

  lemma OtherKeepsFee(s: Store, c: Call, o: Outcome)
    requires CallOk(c) && !c.pc.Done?
    ensures c.inserted ==> StepCall(s, c, o).1.fee == c.fee
  {
  }

  lemma {:induction false} DueIsPosted(opening: Store, y: System, schedule: seq<Label>, b: BusinessId, a: Account)
    requires Invariant(opening, y) && Legal(y, schedule) && AlwaysPosts(y, schedule)
    ensures Sum(Run(y, schedule).calls, DueTo(b, a)) == Sum(y.calls, DueTo(b, a)) + PostedDuring(y, schedule, b, a)
    decreases |schedule|
  {
    if schedule != [] {
      match schedule[0] {
        case Arrive(op, biz, ref, amount, fee) => SumAppend(y.calls, NewCall(op, biz, ref, amount, fee), DueTo(b, a));
        case Act(i, o) =>
          assert CallOk(y.calls[i]);
          StepIsDue(y.store, y.calls[i], o, b, a);
          SumUpdate(y.calls, i, StepCall(y.store, y.calls[i], o).1, DueTo(b, a));
        case Expire(_) =>
      }
      InvariantStep(opening, y, schedule[0]);
      DueIsPosted(opening, Next(y, schedule[0]), schedule[1..], b, a);
    }
  }

  /** What a recorded call should leave on an account: a deposit its amount on the wallet, from outside; a
      withdrawal its amount outside and its fee with revenue, both from the wallet. */
  function Books(b: BusinessId, a: Account): Call -> int
  {
    (c: Call) =>
      if c.biz != b || !c.inserted then 0
      else match a
        case WalletAccount => if c.op.Deposit? then c.amount else -(c.amount + c.fee)
        case ExternalAccount => if c.op.Deposit? then -(c.amount as int) else c.amount
        case RevenueAccount => c.fee
  }

  /** At rest, when no step failed to post, every account has moved by what the recorded calls leave on it. */
  lemma AccountsAtRest(opening: Store, schedule: seq<Label>, b: BusinessId, a: Account)
    requires UniqueReferences(opening) && Legal(System(opening, []), schedule)
    requires AlwaysPosts(System(opening, []), schedule) && Quiescent(Run(System(opening, []), schedule))
    ensures var y := Run(System(opening, []), schedule);
            Sum(y.store.ledger, OnAccount(b, a)) == Sum(opening.ledger, OnAccount(b, a)) + Sum(y.calls, Books(b, a))
  {
    var y := Run(System(opening, []), schedule);
    Reachable(opening, []);
    Reachable(opening, schedule);
    EveryAccountIsPosted(opening, schedule, b, a);
    DueIsPosted(opening, System(opening, []), schedule, b, a);
    DueAtRest(y, b, a);
  }

  lemma DueAtRest(y: System, b: BusinessId, a: Account)
    requires Quiescent(y) && forall c | c in y.calls :: CallOk(c)
    ensures Sum(y.calls, DueTo(b, a)) == Sum(y.calls, Books(b, a))
  {
    forall c | c in y.calls ensures DueTo(b, a)(c) == Books(b, a)(c) {
      assert CallOk(c) && c.pc.Done?;
    }
    SumCongruent(y.calls, DueTo(b, a), Books(b, a));
  }

  /** The credits, and the debits, of a business on its wallet account. */
  function WalletCredits(b: BusinessId): Entry -> int
  {
    (e: Entry) => if e.biz == b && e.account.WalletAccount? && e.side.Credit? then e.amount else 0
  }

  function WalletDebits(b: BusinessId): Entry -> int
  {
    (e: Entry) => if e.biz == b && e.account.WalletAccount? && e.side.Debit? then e.amount else 0
  }

  /** The ledger store and the service above it. */
  class LedgerService {
    var entries: seq<Entry>

    constructor ()
      ensures entries == []
    {
      entries := [];
    }

    /** One database transaction: both lines or, on failure, neither. */
    method CreatePair(debit: Entry, credit: Entry, fault: Fault) returns (failed: bool)
      modifies this
      ensures failed <==> !fault.Clean?
      ensures entries == if failed then old(entries) else old(entries) + [debit, credit]
    {
      if !fault.Clean? {
        return true;
      }
      entries := entries + [debit, credit];
      return false;
    }

    method RecordDeposit(b: BusinessId, amount: nat, fault: Fault) returns (failed: bool)
      requires Paired(entries)
      modifies this
      ensures Paired(entries) && (failed <==> !fault.Clean?)
      ensures Sum(entries, OnWallet(b)) == Sum(old(entries), OnWallet(b)) + if failed then 0 else amount
      ensures entries == if failed then old(entries) else old(entries) + Posting(b, |old(entries)|, ExternalAccount, WalletAccount, amount)
    {
      PostingEffect(entries, b, ExternalAccount, WalletAccount, amount);
      var credit := Entry(b, |entries|, WalletAccount, Credit, amount);
      var debit := Entry(b, |entries|, ExternalAccount, Debit, amount);
      failed := CreatePair(debit, credit, fault);
    }

    method RecordWithdrawal(b: BusinessId, amount: nat, fault: Fault) returns (failed: bool)
      requires Paired(entries)
      modifies this
      ensures Paired(entries) && (failed <==> !fault.Clean?)
      ensures Sum(entries, OnWallet(b)) == Sum(old(entries), OnWallet(b)) - if failed then 0 else amount
      ensures entries == if failed then old(entries) else old(entries) + Posting(b, |old(entries)|, WalletAccount, ExternalAccount, amount)
    {
      PostingEffect(entries, b, WalletAccount, ExternalAccount, amount);
      var debit := Entry(b, |entries|, WalletAccount, Debit, amount);
      var credit := Entry(b, |entries|, ExternalAccount, Credit, amount);
      failed := CreatePair(debit, credit, fault);
    }

    method RecordFee(b: BusinessId, amount: nat, fault: Fault) returns (failed: bool)
      requires Paired(entries)
      modifies this
      ensures Paired(entries) && (failed <==> !fault.Clean?)
      ensures Sum(entries, OnWallet(b)) == Sum(old(entries), OnWallet(b)) - if failed then 0 else amount
      ensures entries == if failed then old(entries) else old(entries) + Posting(b, |old(entries)|, WalletAccount, RevenueAccount, amount)
    {
      PostingEffect(entries, b, WalletAccount, RevenueAccount, amount);
      var debit := Entry(b, |entries|, WalletAccount, Debit, amount);
      var credit := Entry(b, |entries|, RevenueAccount, Credit, amount);
      failed := CreatePair(debit, credit, fault);
    }

    /** Credits and debits of the wallet account, and the difference from the wallet balance. */
    method Reconcile(b: BusinessId, walletBalance: int)
      returns (credits: int, debits: int, discrepancy: int, reconciled: bool)
      ensures credits == Sum(entries, WalletCredits(b)) && debits == Sum(entries, WalletDebits(b))
      ensures discrepancy == walletBalance - (credits - debits) == walletBalance - Sum(entries, OnWallet(b))
      ensures reconciled <==> walletBalance == Sum(entries, OnWallet(b))
    {
      credits, debits := 0, 0;
      for i := 0 to |entries|
        invariant credits == Sum(entries[..i], WalletCredits(b)) && debits == Sum(entries[..i], WalletDebits(b))
      {
        assert entries[..i + 1] == entries[..i] + [entries[i]];
        SumAppend(entries[..i], entries[i], WalletCredits(b));
        SumAppend(entries[..i], entries[i], WalletDebits(b));
        if entries[i].biz == b && entries[i].account == WalletAccount {
          if entries[i].side == Credit {
            credits := credits + entries[i].amount;
          } else {
            debits := debits + entries[i].amount;
          }
        }
      }
      assert entries[..|entries|] == entries;
      SumDifference(entries, WalletCredits(b), WalletDebits(b), OnWallet(b));
      discrepancy := walletBalance - (credits - debits);
      reconciled := discrepancy == 0;
    }
  }

  lemma PostingEffect(l: seq<Entry>, b: BusinessId, debit: Account, credit: Account, amount: nat)
    requires Paired(l) && debit != credit
    ensures Paired(l + Posting(b, |l|, debit, credit, amount))
    ensures Sum(l + Posting(b, |l|, debit, credit, amount), OnWallet(b))
         == Sum(l, OnWallet(b)) + (if credit.WalletAccount? then amount else 0) - (if debit.WalletAccount? then amount else 0)
  {
    AppendKeepsPaired(l, b, debit, credit, amount);
    var d, c := Entry(b, |l|, debit, Debit, amount), Entry(b, |l|, credit, Credit, amount);
    assert l + Posting(b, |l|, debit, credit, amount) == (l + [d]) + [c];
    SumAppend(l, d, OnWallet(b));
    SumAppend(l + [d], c, OnWallet(b));
  }
}
