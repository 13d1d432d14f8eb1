/** Money is conserved and every reference is credited once, under every interleaving. */
module WalletConservation {
  import opened Common
  import opened WalletRows
  import opened WalletProtocol

  // What each table holds for one business, and what one call has put there.
  function AppliedBy(b: BusinessId): Call -> int { (c: Call) => if c.biz == b then c.applied else 0 }
  function WroteBy(b: BusinessId): Call -> int { (c: Call) => if c.biz == b then c.wrote else 0 }
  function PostedBy(b: BusinessId): Call -> int { (c: Call) => if c.biz == b then c.posted else 0 }
  function WriterOf(r: Reference): Call -> int { (c: Call) => if c.inserted && c.ref == r then 1 else 0 }
  function RowAmount(b: BusinessId): Row -> int { (row: Row) => if row.biz == b then row.amount else 0 }
  function RowOf(r: Reference): Row -> int { (row: Row) => if row.ref == r then 1 else 0 }
  function OnWallet(b: BusinessId): Entry -> int
  {
    (e: Entry) => if e.biz != b || !e.account.WalletAccount? then 0 else if e.side.Credit? then e.amount else 0 - e.amount
  }

  function Recorded(s: Store, b: BusinessId): int { Sum(s.table, RowAmount(b)) }
  function Occurrences(s: Store, r: Reference): int { Sum(s.table, RowOf(r)) }
  function LedgerBalance(s: Store, b: BusinessId): int { Sum(s.ledger, OnWallet(b)) }

  /** The amount a call has put on the balance and neither recorded nor rolled back. */
  function Unrecorded(b: BusinessId): Call -> int { (c: Call) => if c.biz == b then c.applied - c.wrote else 0 }

  /** What a call recorded in the transaction table and not in the ledger. */
  function Unposted(b: BusinessId): Call -> int { (c: Call) => if c.biz == b then c.wrote - c.posted else 0 }

  /** What holds of a call at each position, whatever the other calls do. */
  predicate CallOk(c: Call)
  {
    && (c.inserted ==> Records(c.op) && c.wrote == c.applied == Delta(c))
    && (!c.inserted ==> c.wrote == 0 && c.posted == 0)
    && (c.applied == 0 || c.applied == Delta(c))
    && (c.held == 0 || (c.held == c.amount && c.op.Transfer?))
    && (!Debits(c.op) ==> c.fee == 0)
    && (c.op.ReadBalance? ==> c.applied == 0)
    && (c.op.Deposit? ==> 0 <= c.posted <= c.amount)
    && (Debits(c.op) ==> -(c.amount + c.fee) <= c.posted <= 0)
    && (match c.pc
        case Check => c.op.Transfer? && c.applied == 0 && !c.inserted && c.held == 0 && c.fee == 0
        case Reserve => c.op.Transfer? && c.applied == 0 && !c.inserted && c.held == 0 && c.fee == 0
        case Create => c.op.Transfer? && c.applied == 0 && !c.inserted && c.held == c.amount && c.fee == 0
        case Provider => c.op.Transfer? && c.applied == 0 && !c.inserted && c.held == c.amount && c.fee == 0
        case Lookup => Records(c.op) && c.applied == 0 && !c.inserted && (c.op.Transfer? ==> c.held == c.amount)
        case Read => Records(c.op) && c.applied == 0 && !c.inserted && (c.op.Transfer? ==> c.held == c.amount)
        case Apply => Records(c.op) && c.applied == 0 && !c.inserted && (c.op.Transfer? ==> c.held == c.amount)
        case Insert => Records(c.op) && c.applied == Delta(c) && !c.inserted && c.held == 0
        case Retry => c.op.Deposit? && c.applied == Delta(c) && !c.inserted && c.held == 0
        case Rollback => Records(c.op) && c.applied == Delta(c) && !c.inserted && c.held == 0
        case Post => Records(c.op) && c.inserted && c.posted == 0 && c.held == 0
        case PostFee => Debits(c.op) && c.inserted && c.held == 0 && c.fee > 0 && c.posted in {0, 0 - c.amount}
        case Invalidate => Records(c.op) && c.inserted && c.held == 0
        case Free => (c.op.Transfer? || c.op.Release?) && !c.inserted
        case Done(v) =>
          && (c.inserted ==> v == Succeeded && c.held == 0)
          && (v == Succeeded ==> c.applied == c.wrote)
        case _ => c.op.ReadBalance? && c.applied == 0 && !c.inserted && c.held == 0)
  }

  predicate Records(op: Op) { op.Deposit? || Debits(op) }

  /** A call that settled without inserting either met its reference already recorded or failed. */
  predicate RefAccounted(s: Store, c: Call)
  {
    (c.inserted ==> HasRef(s.table, c.ref)) &&
    (c.pc == Done(Succeeded) && Records(c.op) ==> HasRef(s.table, c.ref))
  }

  /** The relation every reachable system keeps to the store `opening` it started from. */
  ghost predicate Invariant(opening: Store, y: System)
  {
    && y.store.rows.Keys == opening.rows.Keys
    && (forall b | b in opening.rows ::
          y.store.rows[b].balance == opening.rows[b].balance + Sum(y.calls, AppliedBy(b)))
    && (forall b :: Recorded(y.store, b) == Recorded(opening, b) + Sum(y.calls, WroteBy(b)))
    && (forall b :: LedgerBalance(y.store, b) == LedgerBalance(opening, b) + Sum(y.calls, PostedBy(b)))
    && (forall r :: Occurrences(y.store, r) == Occurrences(opening, r) + Sum(y.calls, WriterOf(r)))
    && (forall r :: Occurrences(y.store, r) <= 1)
    && (forall c | c in y.calls :: CallOk(c) && RefAccounted(y.store, c))
  }

  lemma {:induction false} OccursIffHasRef(table: seq<Row>, r: Reference)
    ensures Sum(table, RowOf(r)) >= 0
    ensures HasRef(table, r) <==> Sum(table, RowOf(r)) > 0
  {
    if table != [] {
      var n := |table| - 1;
      OccursIffHasRef(table[..n], r);
      assert table == table[..n] + [table[n]];
    }
  }

  /** A statement moves the balance of `b` by exactly what it adds to its call's history. */
  ghost predicate Balances(s: Store, c: Call, s': Store, c': Call, b: BusinessId)
    requires b in s.rows
  {
    s'.rows.Keys == s.rows.Keys &&
    s'.rows[b].balance - s.rows[b].balance == AppliedBy(b)(c') - AppliedBy(b)(c)
  }

  lemma ApplyBalances(s: Store, c: Call, o: Outcome, b: BusinessId)
    requires CallOk(c) && c.pc.Apply? && b in s.rows
    ensures Balances(s, c, StepApply(s, c, o).0, StepApply(s, c, o).1, b)
  {
  }

  lemma RollbackBalances(s: Store, c: Call, o: Outcome, b: BusinessId)
    requires CallOk(c) && c.pc.Rollback? && b in s.rows
    ensures Balances(s, c, StepRollback(s, c, o).0, StepRollback(s, c, o).1, b)
  {
  }

  lemma LockBalances(s: Store, c: Call, o: Outcome, b: BusinessId)
    requires CallOk(c) && (c.pc.Reserve? || c.pc.Free?) && b in s.rows
    ensures var (s', c') := if c.pc.Reserve? then StepReserve(s, c, o) else StepFree(s, c, o);
            Balances(s, c, s', c', b)
  {
  }

  lemma OtherBalances(s: Store, c: Call, o: Outcome, b: BusinessId)
    requires CallOk(c) && !c.pc.Done? && !SendsUpdate(c.pc) && b in s.rows
    ensures Balances(s, c, StepCall(s, c, o).0, StepCall(s, c, o).1, b)
  {
  }

  lemma StepBalances(s: Store, c: Call, o: Outcome, b: BusinessId)
    requires CallOk(c) && !c.pc.Done? && b in s.rows
    ensures Balances(s, c, StepCall(s, c, o).0, StepCall(s, c, o).1, b)
  {
    match c.pc
    case Apply => ApplyBalances(s, c, o, b);
    case Rollback => RollbackBalances(s, c, o, b);
    case Reserve => LockBalances(s, c, o, b);
    case Free => LockBalances(s, c, o, b);
    case _ => OtherBalances(s, c, o, b);
  }

  lemma StepKeepsRows(s: Store, c: Call, o: Outcome)
    requires !c.pc.Done?
    ensures StepCall(s, c, o).0.rows.Keys == s.rows.Keys
  {
  }

  lemma InsertAmounts(s: Store, c: Call, o: Outcome, b: BusinessId)
    requires CallOk(c) && (c.pc.Insert? || c.pc.Retry?)
    ensures var (s', c') := StepInsert(s, c, o);
            Recorded(s', b) - Recorded(s, b) == WroteBy(b)(c') - WroteBy(b)(c)
  {
    SumAppend(s.table, Row(c.ref, c.biz, Delta(c)), RowAmount(b));
  }

  lemma InsertReferences(s: Store, c: Call, o: Outcome, r: Reference)
    requires CallOk(c) && (c.pc.Insert? || c.pc.Retry?)
    ensures var (s', c') := StepInsert(s, c, o);
            && Occurrences(s', r) - Occurrences(s, r) == WriterOf(r)(c') - WriterOf(r)(c)
            && (Occurrences(s, r) <= 1 ==> Occurrences(s', r) <= 1)
  {
    SumAppend(s.table, Row(c.ref, c.biz, Delta(c)), RowOf(r));
    OccursIffHasRef(s.table, r);
  }

  lemma StepKeepsRef(s: Store, c: Call, o: Outcome, r: Reference)
    requires !c.pc.Done? && HasRef(s.table, r)
    ensures HasRef(StepCall(s, c, o).0.table, r)
  {
    var row :| row in s.table && row.ref == r;
    assert s.table <= StepCall(s, c, o).0.table by { TableGrows(s, c, o); }
    assert row in StepCall(s, c, o).0.table;
  }

  lemma TableGrows(s: Store, c: Call, o: Outcome)
    requires !c.pc.Done?
    ensures s.table <= StepCall(s, c, o).0.table
  {
  }

  lemma OnlyInsertWrites(s: Store, c: Call, o: Outcome)
    requires !c.pc.Done? && !c.pc.Insert? && !c.pc.Retry?
    ensures var (s', c') := StepCall(s, c, o);
            s'.table == s.table && c'.wrote == c.wrote && c'.inserted == c.inserted
  {
  }

  lemma StepKeepsNames(s: Store, c: Call, o: Outcome)
    requires !c.pc.Done?
    ensures var c' := StepCall(s, c, o).1;
            c'.biz == c.biz && c'.ref == c.ref && c'.op == c.op && c'.amount == c.amount
  {
  }

  lemma StepTable(s: Store, c: Call, o: Outcome, b: BusinessId, r: Reference)
    requires CallOk(c) && !c.pc.Done?
    ensures var (s', c') := StepCall(s, c, o);
            && Recorded(s', b) - Recorded(s, b) == WroteBy(b)(c') - WroteBy(b)(c)
            && Occurrences(s', r) - Occurrences(s, r) == WriterOf(r)(c') - WriterOf(r)(c)
            && (Occurrences(s, r) <= 1 ==> Occurrences(s', r) <= 1)
  {
    if c.pc.Insert? || c.pc.Retry? {
      InsertAmounts(s, c, o, b);
      InsertReferences(s, c, o, r);
    } else {
      OnlyInsertWrites(s, c, o);
      StepKeepsNames(s, c, o);
    }
  }

  lemma PostingMoves(ledger: seq<Entry>, d: Entry, k: Entry, b: BusinessId)
    ensures Sum(ledger + [d, k], OnWallet(b)) == Sum(ledger, OnWallet(b)) + OnWallet(b)(d) + OnWallet(b)(k)
  {
    SumAppend(ledger, d, OnWallet(b));
    SumAppend(ledger + [d], k, OnWallet(b));
    assert (ledger + [d]) + [k] == ledger + [d, k];
  }

  lemma PostLedger(s: Store, c: Call, o: Outcome, b: BusinessId)
    requires CallOk(c) && c.pc.Post?
    ensures var (s', c') := StepPost(s, c, o);
            LedgerBalance(s', b) - LedgerBalance(s, b) == PostedBy(b)(c') - PostedBy(b)(c)
  {
    var accounts := if Debits(c.op) then (WalletAccount, ExternalAccount) else (ExternalAccount, WalletAccount);
    var p := Posting(c.biz, |s.ledger|, accounts.0, accounts.1, c.amount);
    PostingMoves(s.ledger, p[0], p[1], b);
  }

  lemma FeeLedger(s: Store, c: Call, o: Outcome, b: BusinessId)
    requires CallOk(c) && c.pc.PostFee?
    ensures var (s', c') := StepPostFee(s, c, o);
            LedgerBalance(s', b) - LedgerBalance(s, b) == PostedBy(b)(c') - PostedBy(b)(c)
  {
    var p := Posting(c.biz, |s.ledger|, WalletAccount, RevenueAccount, c.fee);
    PostingMoves(s.ledger, p[0], p[1], b);
  }

  lemma OnlyPostingsPost(s: Store, c: Call, o: Outcome)
    requires !c.pc.Done? && !c.pc.Post? && !c.pc.PostFee?
    ensures var (s', c') := StepCall(s, c, o); s'.ledger == s.ledger && c'.posted == c.posted
  {
  }

  lemma StepLedger(s: Store, c: Call, o: Outcome, b: BusinessId)
    requires CallOk(c) && !c.pc.Done?
    ensures var (s', c') := StepCall(s, c, o);
            LedgerBalance(s', b) - LedgerBalance(s, b) == PostedBy(b)(c') - PostedBy(b)(c)
  {
    match c.pc
    case Post => PostLedger(s, c, o, b);
    case PostFee => FeeLedger(s, c, o, b);
    case _ =>
      OnlyPostingsPost(s, c, o);
      StepKeepsNames(s, c, o);
  }

  lemma ApplyKeepsCallOk(s: Store, c: Call, o: Outcome)
    requires CallOk(c) && c.pc.Apply?
    ensures CallOk(StepApply(s, c, o).1)
  {
  }

  lemma RollbackKeepsCallOk(s: Store, c: Call, o: Outcome)
    requires CallOk(c) && c.pc.Rollback?
    ensures CallOk(StepRollback(s, c, o).1)
  {
  }

  lemma LockKeepsCallOk(s: Store, c: Call, o: Outcome)
    requires CallOk(c) && (c.pc.Reserve? || c.pc.Free?)
    ensures CallOk((if c.pc.Reserve? then StepReserve(s, c, o) else StepFree(s, c, o)).1)
  {
  }

  lemma RecordKeepsCallOk(s: Store, c: Call, o: Outcome)
    requires CallOk(c) && (c.pc.Insert? || c.pc.Retry? || c.pc.Post? || c.pc.PostFee?)
    ensures CallOk(StepCall(s, c, o).1)
  {
  }

  lemma OtherKeepsCallOk(s: Store, c: Call, o: Outcome)
    requires CallOk(c) && !c.pc.Done? && !SendsUpdate(c.pc)
    requires !c.pc.Insert? && !c.pc.Retry? && !c.pc.Post? && !c.pc.PostFee?
    ensures CallOk(StepCall(s, c, o).1)
  {
  }

  lemma StepKeepsCallOk(s: Store, c: Call, o: Outcome)
    requires CallOk(c) && !c.pc.Done?
    ensures CallOk(StepCall(s, c, o).1)
  {
    if SendsUpdate(c.pc) {
      match c.pc
      case Apply => ApplyKeepsCallOk(s, c, o);
      case Rollback => RollbackKeepsCallOk(s, c, o);
      case _ => LockKeepsCallOk(s, c, o);
    } else if c.pc.Insert? || c.pc.Retry? || c.pc.Post? || c.pc.PostFee? {
      RecordKeepsCallOk(s, c, o);
    } else {
      OtherKeepsCallOk(s, c, o);
    }
  }

  lemma InsertKeepsRefs(s: Store, c: Call, o: Outcome)
    requires CallOk(c) && (c.pc.Insert? || c.pc.Retry?) && RefAccounted(s, c)
    ensures RefAccounted(StepInsert(s, c, o).0, StepInsert(s, c, o).1)
  {
    var (s', c') := StepInsert(s, c, o);
    if s'.table != s.table {
      assert s'.table[|s.table|].ref == c.ref;
    }
  }

  lemma StepKeepsRefs(s: Store, c: Call, o: Outcome)
    requires CallOk(c) && !c.pc.Done? && RefAccounted(s, c)
    ensures RefAccounted(StepCall(s, c, o).0, StepCall(s, c, o).1)
  {
    if c.pc.Insert? || c.pc.Retry? {
      InsertKeepsRefs(s, c, o);
    } else {
      OnlyInsertWrites(s, c, o);
      StepKeepsNames(s, c, o);
    }
  }

  lemma ActKeepsTotals(opening: Store, y: System, i: nat, o: Outcome)
    requires Invariant(opening, y) && Enabled(y, Act(i, o))
    ensures var z := Next(y, Act(i, o));
            && z.store.rows.Keys == opening.rows.Keys
            && (forall b | b in opening.rows ::
                  z.store.rows[b].balance == opening.rows[b].balance + Sum(z.calls, AppliedBy(b)))
            && (forall b :: Recorded(z.store, b) == Recorded(opening, b) + Sum(z.calls, WroteBy(b)))
            && (forall b :: LedgerBalance(z.store, b) == LedgerBalance(opening, b) + Sum(z.calls, PostedBy(b)))
  {
    var c := y.calls[i];
    var (s', c') := StepCall(y.store, c, o);
    var z := Next(y, Act(i, o));
    StepKeepsRows(y.store, c, o);
    forall b | b in opening.rows
      ensures z.store.rows[b].balance == opening.rows[b].balance + Sum(z.calls, AppliedBy(b))
    {
      StepBalances(y.store, c, o, b);
      SumUpdate(y.calls, i, c', AppliedBy(b));
    }
    forall b ensures Recorded(z.store, b) == Recorded(opening, b) + Sum(z.calls, WroteBy(b)) {
      StepTable(y.store, c, o, b, c.ref);
      SumUpdate(y.calls, i, c', WroteBy(b));
    }
    forall b ensures LedgerBalance(z.store, b) == LedgerBalance(opening, b) + Sum(z.calls, PostedBy(b)) {
      StepLedger(y.store, c, o, b);
      SumUpdate(y.calls, i, c', PostedBy(b));
    }
  }

  lemma ActKeepsReferences(opening: Store, y: System, i: nat, o: Outcome)
    requires Invariant(opening, y) && Enabled(y, Act(i, o))
    ensures var z := Next(y, Act(i, o));
            forall r :: Occurrences(z.store, r) == Occurrences(opening, r) + Sum(z.calls, WriterOf(r))
                        && Occurrences(z.store, r) <= 1
  {
    var c := y.calls[i];
    var (s', c') := StepCall(y.store, c, o);
    var z := Next(y, Act(i, o));
    forall r
      ensures Occurrences(z.store, r) == Occurrences(opening, r) + Sum(z.calls, WriterOf(r))
      ensures Occurrences(z.store, r) <= 1
    {
      StepTable(y.store, c, o, c.biz, r);
      SumUpdate(y.calls, i, c', WriterOf(r));
    }
  }

  lemma ActKeepsCalls(y: System, i: nat, o: Outcome)
    requires Enabled(y, Act(i, o))
    requires forall c | c in y.calls :: CallOk(c) && RefAccounted(y.store, c)
    ensures var z := Next(y, Act(i, o));
            forall c | c in z.calls :: CallOk(c) && RefAccounted(z.store, c)
  {
    var z := Next(y, Act(i, o));
    var c0 := y.calls[i];
    StepKeepsCallOk(y.store, c0, o);
    StepKeepsRefs(y.store, c0, o);
    forall c | c in z.calls ensures CallOk(c) && RefAccounted(z.store, c) {
      var k :| 0 <= k < |z.calls| && z.calls[k] == c;
      if k != i {
        assert c in y.calls;
        if HasRef(y.store.table, c.ref) {
          StepKeepsRef(y.store, c0, o, c.ref);
        }
      }
    }
  }

  lemma ArriveKeepsInvariant(opening: Store, y: System, l: Label)
    requires Invariant(opening, y) && l.Arrive?
    ensures Invariant(opening, Next(y, l))
  {
    var c := NewCall(l.op, l.biz, l.ref, l.amount, l.fee);
    forall b ensures Sum(y.calls + [c], AppliedBy(b)) == Sum(y.calls, AppliedBy(b)) { SumAppend(y.calls, c, AppliedBy(b)); }
    forall b ensures Sum(y.calls + [c], WroteBy(b)) == Sum(y.calls, WroteBy(b)) { SumAppend(y.calls, c, WroteBy(b)); }
    forall b ensures Sum(y.calls + [c], PostedBy(b)) == Sum(y.calls, PostedBy(b)) { SumAppend(y.calls, c, PostedBy(b)); }
    forall r ensures Sum(y.calls + [c], WriterOf(r)) == Sum(y.calls, WriterOf(r)) { SumAppend(y.calls, c, WriterOf(r)); }
  }

  lemma InvariantStep(opening: Store, y: System, l: Label)
    requires Invariant(opening, y) && Enabled(y, l)
    ensures Invariant(opening, Next(y, l))
  {
    match l
    case Arrive(_, _, _, _, _) => ArriveKeepsInvariant(opening, y, l);
    case Act(i, o) =>
      ActKeepsTotals(opening, y, i, o);
      ActKeepsReferences(opening, y, i, o);
      ActKeepsCalls(y, i, o);
    case Expire(_) =>
  }

  lemma {:induction false} InvariantRun(opening: Store, y: System, schedule: seq<Label>)
    requires Invariant(opening, y) && Legal(y, schedule)
    ensures Invariant(opening, Run(y, schedule))
    decreases |schedule|
  {
    if schedule != [] {
      InvariantStep(opening, y, schedule[0]);
      InvariantRun(opening, Next(y, schedule[0]), schedule[1..]);
    }
  }

  /** References are unique in the table the system opens on: the column has a unique index. */
  ghost predicate UniqueReferences(s: Store) { forall r :: Occurrences(s, r) <= 1 }

  /** Every reachable system satisfies the invariant. */
  lemma Reachable(opening: Store, schedule: seq<Label>)
    requires UniqueReferences(opening) && Legal(System(opening, []), schedule)
    ensures Invariant(opening, Run(System(opening, []), schedule))
  {
    InvariantRun(opening, System(opening, []), schedule);
  }

  /** At every moment of every interleaving, a balance is the opening balance, plus the signed
      amounts recorded since, plus what calls have moved and neither recorded nor rolled back. */
  lemma BalanceIsConserved(opening: Store, schedule: seq<Label>, b: BusinessId)
    requires UniqueReferences(opening) && Legal(System(opening, []), schedule) && b in opening.rows
    ensures var y := Run(System(opening, []), schedule);
            b in y.store.rows &&
            y.store.rows[b].balance == opening.rows[b].balance
                                       + (Recorded(y.store, b) - Recorded(opening, b))
                                       + Sum(y.calls, Unrecorded(b))
  {
    Reachable(opening, schedule);
    var y := Run(System(opening, []), schedule);
    SumDifference(y.calls, AppliedBy(b), WroteBy(b), Unrecorded(b));
  }

  /** Money left on a balance by a call that has given up: its UPDATE was torn, or its rollback failed. */
  predicate Stranded(c: Call) { c.pc == Done(Failed) && c.applied != 0 }

  /** A call holds an unrecorded amount only between its UPDATE and its insert, or once stranded. */
  lemma UnrecordedOnlyInFlight(opening: Store, schedule: seq<Label>, i: nat)
    requires UniqueReferences(opening) && Legal(System(opening, []), schedule)
    requires i < |Run(System(opening, []), schedule).calls|
    ensures var c := Run(System(opening, []), schedule).calls[i];
            c.applied - c.wrote == if c.pc.Insert? || c.pc.Retry? || c.pc.Rollback? then Delta(c)
                                   else if c.pc.Free? || Stranded(c) then c.applied else 0
  {
    Reachable(opening, schedule);
    assert CallOk(Run(System(opening, []), schedule).calls[i]);
  }

  /** Exactly-once: whatever the number of calls with a reference, and however they interleave,
      at most one of them records it, none if it was recorded before, and every deposit or
      withdrawal that reported success finds it recorded. */
  lemma RecordedExactlyOnce(opening: Store, schedule: seq<Label>, r: Reference)
    requires UniqueReferences(opening) && Legal(System(opening, []), schedule)
    ensures var y := Run(System(opening, []), schedule);
            && Sum(y.calls, WriterOf(r)) == (if HasRef(y.store.table, r) && !HasRef(opening.table, r) then 1 else 0)
            && (forall c | c in y.calls && c.ref == r && Records(c.op) && c.pc == Done(Succeeded) ::
                  Occurrences(y.store, r) == 1 && c.applied == c.wrote)
  {
    Reachable(opening, schedule);
    var y := Run(System(opening, []), schedule);
    OccursIffHasRef(y.store.table, r);
    OccursIffHasRef(opening.table, r);
    SumNonNegative(y.calls, WriterOf(r));
  }

  /** A step that tears money from its record: a torn UPDATE of the balance, or a failed rollback. */
  predicate Tears(y: System, l: Label)
    requires Enabled(y, l)
  {
    l.Act? &&
    var c := y.calls[l.index];
    Delta(c) != 0 && ((c.pc.Apply? && Changes(y.store, c, l.outcome) && l.outcome.TornUpdate?)
                      || (c.pc.Rollback? && !Changes(y.store, c, l.outcome)))
  }

  /** Giving up with money still applied happens at exactly those steps. */
  lemma StrandedExactlyByTears(opening: Store, y: System, i: nat, o: Outcome)
    requires Invariant(opening, y) && Enabled(y, Act(i, o)) && !y.calls[i].pc.Free?
    ensures var c' := Next(y, Act(i, o)).calls[i];
            (c'.pc.Free? || c'.pc == Done(Failed)) && c'.applied != 0 <==> Tears(y, Act(i, o))
  {
    StepKeepsCallOk(y.store, y.calls[i], o);
  }

  predicate NeverTears(y: System, schedule: seq<Label>)
    requires Legal(y, schedule)
    decreases |schedule|
  {
    schedule != [] ==> !Tears(y, schedule[0]) && NeverTears(Next(y, schedule[0]), schedule[1..])
  }

  /** No call is on its way out with money still applied. */
  predicate Sound(y: System)
  {
    forall c | c in y.calls :: c.pc.Free? || c.pc == Done(Failed) ==> c.applied == 0
  }

  /** A step keeps a sound system sound if and only if it does not tear. */
  lemma SoundStepIff(opening: Store, y: System, l: Label)
    requires Invariant(opening, y) && Enabled(y, l) && Sound(y)
    ensures Sound(Next(y, l)) <==> !Tears(y, l)
  {
    var z := Next(y, l);
    if l.Act? {
      var c0 := y.calls[l.index];
      assert c0 in y.calls && z.calls[l.index] in z.calls;
      if !c0.pc.Free? {
        StrandedExactlyByTears(opening, y, l.index, l.outcome);
      }
      forall c | c in z.calls && c != z.calls[l.index] ensures c.pc.Free? || c.pc == Done(Failed) ==> c.applied == 0 {
        var k :| 0 <= k < |z.calls| && z.calls[k] == c;
        assert k != l.index ==> c in y.calls;
      }
    }
  }

  /** What is stranded stays stranded. */
  lemma UnsoundStays(y: System, l: Label)
    requires Enabled(y, l) && !Sound(y)
    ensures !Sound(Next(y, l))
  {
    var c :| c in y.calls && (c.pc.Free? || c.pc == Done(Failed)) && c.applied != 0;
    var k :| 0 <= k < |y.calls| && y.calls[k] == c;
    var z := Next(y, l);
    assert z.calls[k] in z.calls;
  }

  lemma {:induction false} UnsoundForever(y: System, schedule: seq<Label>)
    requires Legal(y, schedule) && !Sound(y)
    ensures !Sound(Run(y, schedule))
    decreases |schedule|
  {
    if schedule != [] {
      UnsoundStays(y, schedule[0]);
      UnsoundForever(Next(y, schedule[0]), schedule[1..]);
    }
  }

  /** A run ends with no amount stranded if and only if none of its steps tore. */
  lemma {:induction false} SoundRunIff(opening: Store, y: System, schedule: seq<Label>)
    requires Invariant(opening, y) && Sound(y) && Legal(y, schedule)
    ensures Sound(Run(y, schedule)) <==> NeverTears(y, schedule)
    decreases |schedule|
  {
    if schedule != [] {
      var z := Next(y, schedule[0]);
      InvariantStep(opening, y, schedule[0]);
      SoundStepIff(opening, y, schedule[0]);
      if Sound(z) {
        SoundRunIff(opening, z, schedule[1..]);
      } else {
        UnsoundForever(z, schedule[1..]);
      }
    }
  }

  /** When all calls have returned and nothing tore, the balance is the opening balance plus
      what was recorded: duplicates and rolled-back calls leave no trace. */
  lemma QuiescentBalance(opening: Store, schedule: seq<Label>, b: BusinessId)
    requires UniqueReferences(opening) && Legal(System(opening, []), schedule) && b in opening.rows
    requires NeverTears(System(opening, []), schedule) && Quiescent(Run(System(opening, []), schedule))
    ensures var y := Run(System(opening, []), schedule);
            b in y.store.rows &&
            y.store.rows[b].balance == opening.rows[b].balance + (Recorded(y.store, b) - Recorded(opening, b))
  {
    BalanceIsConserved(opening, schedule, b);
    Reachable(opening, schedule);
    SoundRunIff(opening, System(opening, []), schedule);
    NothingUnrecordedAtRest(Run(System(opening, []), schedule), b);
  }

  lemma NothingUnrecordedAtRest(y: System, b: BusinessId)
    requires Quiescent(y) && Sound(y) && forall c | c in y.calls :: CallOk(c)
    ensures Sum(y.calls, Unrecorded(b)) == 0
  {
    var zero := (c: Call) => 0;
    SumCongruent(y.calls, Unrecorded(b), zero);
    SumZero(y.calls, zero);
  }

  lemma {:induction false} SumZero(s: seq<Call>, zero: Call -> int)
    requires forall c :: zero(c) == 0
    ensures Sum(s, zero) == 0
  {
    if s != [] {
      SumZero(s[..|s| - 1], zero);
    }
  }

  lemma {:induction false} RunConcat(y: System, p: seq<Label>, q: seq<Label>)
    requires Legal(y, p) && Legal(Run(y, p), q)
    ensures Legal(y, p + q) && Run(y, p + q) == Run(Run(y, p), q)
    decreases |p|
  {
    if p == [] {
      assert p + q == q;
    } else {
      assert (p + q)[0] == p[0] && (p + q)[1..] == p[1..] + q;
      RunConcat(Next(y, p[0]), p[1..], q);
    }
  }

  /** A legal schedule followed by one more label. */
  lemma Extend(y: System, p: seq<Label>, l: Label) returns (q: seq<Label>)
    requires Legal(y, p) && Enabled(Run(y, p), l)
    ensures Legal(y, q) && Run(y, q) == Next(Run(y, p), l)
  {
    q := p + [l];
    assert [l][1..] == [];
    RunConcat(y, p, [l]);
  }

  /** A legal schedule without its last label is legal, and the last label is taken after it. */
  lemma {:induction false} LegalFront(y: System, schedule: seq<Label>)
    requires Legal(y, schedule) && schedule != []
    ensures var front, l := schedule[..|schedule| - 1], schedule[|schedule| - 1];
            Legal(y, front) && Enabled(Run(y, front), l) && Run(y, schedule) == Next(Run(y, front), l)
    decreases |schedule|
  {
    if |schedule| == 1 {
      assert schedule[1..] == [];
    } else {
      var n := |schedule| - 1;
      LegalFront(Next(y, schedule[0]), schedule[1..]);
      assert schedule[..n][1..] == schedule[1..][..n - 1] && schedule[..n][0] == schedule[0];
    }
  }
}
