/** What a lock reserves stays reserved: `locked` is the sum of the amounts transfers hold, and
    never exceeds the balance, exactly as long as no step trespasses. */
module WalletReservation {
  import opened Common
  import opened WalletRows
  import opened WalletProtocol
  import opened WalletConservation

  function HeldBy(b: BusinessId): Call -> int { (c: Call) => if c.biz == b then c.held else 0 }

  /** The reservation of one wallet is in order. */
  ghost predicate Reserved(y: System, b: BusinessId)
  {
    b in y.store.rows ==>
      && y.store.rows[b].locked == Sum(y.calls, HeldBy(b))
      && y.store.rows[b].locked <= y.store.rows[b].balance
  }

  ghost predicate AllReserved(y: System) { forall b :: Reserved(y, b) }

  /** Steps that take what others reserved, told from the row and the call before the step:
      a withdrawal or unlock that releases a lock its call does not hold while others hold some;
      a fee, or a rolled-back deposit, larger than what is available. */
  predicate Trespasses(y: System, l: Label)
    requires Enabled(y, l)
  {
    l.Act? &&
    var c := y.calls[l.index];
    Changes(y.store, c, l.outcome) &&
    var w := y.store.rows[c.biz];
    match c.pc
    case Apply => Debits(c.op) && ((c.held < c.amount && w.locked > 0) || c.fee > w.balance - w.locked)
    case Free => c.held < c.amount && w.locked > 0
    case Rollback => c.op.Deposit? && c.amount > w.balance - w.locked
    case _ => false
  }

  lemma HeldFits(y: System, i: nat)
    requires i < |y.calls| && y.calls[i].biz in y.store.rows && AllReserved(y)
    ensures y.calls[i].held <= y.store.rows[y.calls[i].biz].locked
    ensures forall b | b in y.store.rows :: 0 <= y.store.rows[b].locked
  {
    SumAtLeast(y.calls, i, HeldBy(y.calls[i].biz));
    forall b | b in y.store.rows ensures 0 <= y.store.rows[b].locked {
      assert Reserved(y, b);
      SumNonNegative(y.calls, HeldBy(b));
    }
    assert Reserved(y, y.calls[i].biz);
  }

  /** The effect of a step on the row of its own business, clamp included. */
  lemma OwnRow(s: Store, c: Call, o: Outcome)
    requires CallOk(c) && !c.pc.Done? && c.biz in s.rows
    requires c.held <= s.rows[c.biz].locked <= s.rows[c.biz].balance
    ensures var (s', c') := StepCall(s, c, o);
            var w, v := s.rows[c.biz], s'.rows[c.biz];
            (v.locked - w.locked == c'.held - c.held && v.locked <= v.balance)
            <==> !Trespasses(System(s, [c]), Act(0, o))
  {
    if SendsUpdate(c.pc) {
      OwnRowUpdate(s, c, o);
    } else {
      OwnRowQuiet(s, c, o);
    }
  }

  lemma OwnRowQuiet(s: Store, c: Call, o: Outcome)
    requires CallOk(c) && !c.pc.Done? && !SendsUpdate(c.pc)
    ensures var (s', c') := StepCall(s, c, o);
            s'.rows == s.rows && c'.held == c.held
  {
  }

  lemma OwnRowUpdate(s: Store, c: Call, o: Outcome)
    requires CallOk(c) && SendsUpdate(c.pc) && c.biz in s.rows
    requires c.held <= s.rows[c.biz].locked <= s.rows[c.biz].balance
    ensures var (s', c') := StepCall(s, c, o);
            var w, v := s.rows[c.biz], s'.rows[c.biz];
            (v.locked - w.locked == c'.held - c.held && v.locked <= v.balance)
            <==> !Trespasses(System(s, [c]), Act(0, o))
  {
  }

  lemma OtherRows(s: Store, c: Call, o: Outcome, b: BusinessId)
    requires !c.pc.Done? && b in s.rows && b != c.biz
    ensures b in StepCall(s, c, o).0.rows && StepCall(s, c, o).0.rows[b] == s.rows[b]
  {
  }

  /** From a system whose reservations are in order, a step keeps them in order
      if and only if it is not a trespass. */
  lemma StepKeepsReservationsIff(opening: Store, y: System, l: Label)
    requires Invariant(opening, y) && Enabled(y, l) && AllReserved(y)
    ensures AllReserved(Next(y, l)) <==> !Trespasses(y, l)
  {
    match l
    case Expire(_) =>
      assert forall b :: Reserved(y, b) ==> Reserved(Next(y, l), b);
    case Arrive(op, biz, ref, amount, fee) =>
      forall b ensures Reserved(Next(y, l), b) {
        SumAppend(y.calls, NewCall(op, biz, ref, amount, fee), HeldBy(b));
        assert Reserved(y, b);
      }
    case Act(i, o) => ActKeepsReservationsIff(opening, y, i, o);
  }

  lemma ActKeepsReservationsIff(opening: Store, y: System, i: nat, o: Outcome)
    requires Invariant(opening, y) && Enabled(y, Act(i, o)) && AllReserved(y)
    ensures AllReserved(Next(y, Act(i, o))) <==> !Trespasses(y, Act(i, o))
  {
    var c := y.calls[i];
    var (s', c') := StepCall(y.store, c, o);
    var z := Next(y, Act(i, o));
    StepKeepsRows(y.store, c, o);
    StepKeepsNames(y.store, c, o);
    forall b | b != c.biz ensures Reserved(z, b) {
      SumUpdate(y.calls, i, c', HeldBy(b));
      assert Reserved(y, b);
      if b in y.store.rows {
        OtherRows(y.store, c, o, b);
      }
    }
    SumUpdate(y.calls, i, c', HeldBy(c.biz));
    assert Reserved(y, c.biz);
    if c.biz in y.store.rows {
      HeldFits(y, i);
      OwnRow(y.store, c, o);
      assert Reserved(z, c.biz) <==> !Trespasses(y, Act(i, o));
    }
  }

  predicate NeverTrespasses(y: System, schedule: seq<Label>)
    requires Legal(y, schedule)
    decreases |schedule|
  {
    schedule != [] ==> !Trespasses(y, schedule[0]) && NeverTrespasses(Next(y, schedule[0]), schedule[1..])
  }

  /** Reservations are in order after every prefix of the schedule. */
  ghost predicate AlwaysReserved(y: System, schedule: seq<Label>)
    requires Legal(y, schedule)
    decreases |schedule|
  {
    AllReserved(y) && (schedule != [] ==> AlwaysReserved(Next(y, schedule[0]), schedule[1..]))
  }

  /** Over whole runs: reservations are in order in every state passed through
      if and only if no step of the run trespasses. */
  lemma {:induction false} RunKeepsReservationsIff(opening: Store, y: System, schedule: seq<Label>)
    requires Invariant(opening, y) && AllReserved(y) && Legal(y, schedule)
    ensures AlwaysReserved(y, schedule) <==> NeverTrespasses(y, schedule)
    ensures NeverTrespasses(y, schedule) ==> AllReserved(Run(y, schedule))
    decreases |schedule|
  {
    if schedule != [] {
      var z := Next(y, schedule[0]);
      StepKeepsReservationsIff(opening, y, schedule[0]);
      InvariantStep(opening, y, schedule[0]);
      if AllReserved(z) {
        RunKeepsReservationsIff(opening, z, schedule[1..]);
      }
    }
  }

  /** A transfer the provider settled is never refused for lack of balance when its fee fits
      what is available, in particular when there is no fee: both balance checks pass, so only
      a database error can make it fail there. */
  lemma CoveredWhenReserved(opening: Store, y: System, i: nat)
    requires Invariant(opening, y) && AllReserved(y) && i < |y.calls|
    requires y.calls[i].op.Transfer? && (y.calls[i].pc.Read? || y.calls[i].pc.Apply?)
    requires y.calls[i].biz in y.store.rows
    requires var w := y.store.rows[y.calls[i].biz]; y.calls[i].fee == 0 || y.calls[i].fee <= w.balance - w.locked
    ensures StepCall(y.store, y.calls[i], Good).1.pc == if y.calls[i].pc.Read? then Apply else Insert
  {
    HeldFits(y, i);
    assert CallOk(y.calls[i]);
    assert Reserved(y, y.calls[i].biz);
  }

  /** A finished call keeps a lock in exactly these ways: its reservation was torn, its reference
      was already recorded, or its unlock failed. */
  lemma RetainedExactlyWhen(opening: Store, y: System, i: nat, o: Outcome)
    requires Invariant(opening, y) && Enabled(y, Act(i, o))
    ensures var c := y.calls[i];
            var c' := Next(y, Act(i, o)).calls[i];
            c'.pc.Done? ==>
              (c'.held > 0 <==>
                 || (c.pc.Reserve? && Changes(y.store, c, o) && c.amount > 0)
                 || (c.pc.Lookup? && c.op.Transfer? && c.amount > 0)
                 || (c.pc.Free? && c.held > 0 && !Changes(y.store, c, o)))
  {
    assert CallOk(y.calls[i]);
  }

  /** At rest, after a run without trespass, `locked` is what finished calls still hold:
      nothing, when none of them retained its lock. */
  lemma LockedAtRest(opening: Store, schedule: seq<Label>, b: BusinessId)
    requires UniqueReferences(opening) && Legal(System(opening, []), schedule)
    requires AllReserved(System(opening, [])) && NeverTrespasses(System(opening, []), schedule)
    requires b in opening.rows
    ensures var y := Run(System(opening, []), schedule);
            && b in y.store.rows
            && 0 <= y.store.rows[b].locked <= y.store.rows[b].balance
            && (y.store.rows[b].locked == 0 <==> forall c | c in y.calls && c.biz == b :: c.held == 0)
  {
    var y := Run(System(opening, []), schedule);
    Reachable(opening, schedule);
    RunKeepsReservationsIff(opening, System(opening, []), schedule);
    assert Reserved(y, b);
    SumNonNegative(y.calls, HeldBy(b));
    if forall c | c in y.calls && c.biz == b :: c.held == 0 {
      var zero := (c: Call) => 0;
      SumCongruent(y.calls, HeldBy(b), zero);
      SumZero(y.calls, zero);
    } else {
      var c :| c in y.calls && c.biz == b && c.held != 0;
      var k :| 0 <= k < |y.calls| && y.calls[k] == c;
      SumAtLeast(y.calls, k, HeldBy(b));
    }
  }

  /** The ordinary conditions: only single transfers, deposits and reads; no fee; every insert
      of a transaction succeeds and no UPDATE of the balance is torn. */
  predicate Ordinary(y: System, l: Label)
    requires Enabled(y, l)
  {
    match l
    case Arrive(op, _, _, _, _) => !op.Withdrawal? && !op.Release?
    case Act(i, o) =>
      var (s, c) := StepCall(y.store, y.calls[i], o);
      && (y.calls[i].pc.Apply? ==> !o.TornUpdate?)
      && !c.pc.Rollback?
      && (o.Settled? ==> o.fee == 0)
    case Expire(_) => true
  }

  predicate Orderly(y: System)
  {
    forall c | c in y.calls ::
      && !c.op.Withdrawal? && !c.op.Release? && !c.pc.Rollback? && c.fee == 0
      && (c.pc.Free? ==> c.held == c.amount)
  }

  lemma OrderlyCall(s: Store, c: Call, o: Outcome)
    requires CallOk(c) && !c.pc.Done? && !c.op.Withdrawal? && !c.op.Release? && !c.pc.Rollback? && c.fee == 0
    requires c.pc.Free? ==> c.held == c.amount
    requires (c.pc.Apply? ==> !o.TornUpdate?) && !StepCall(s, c, o).1.pc.Rollback? && (o.Settled? ==> o.fee == 0)
    ensures var c' := StepCall(s, c, o).1;
            c'.op == c.op && !c'.pc.Rollback? && c'.fee == 0 && (c'.pc.Free? ==> c'.held == c'.amount)
  {
  }

  lemma OrderlyStep(opening: Store, y: System, l: Label)
    requires Invariant(opening, y) && Orderly(y) && Enabled(y, l) && Ordinary(y, l) && AllReserved(y)
    ensures Orderly(Next(y, l)) && !Trespasses(y, l)
  {
    if l.Act? {
      var c0 := y.calls[l.index];
      assert CallOk(c0) && c0 in y.calls;
      OrderlyCall(y.store, c0, l.outcome);
      var z := Next(y, l);
      forall c | c in z.calls
        ensures !c.op.Withdrawal? && !c.op.Release? && !c.pc.Rollback? && c.fee == 0
        ensures c.pc.Free? ==> c.held == c.amount
      {
        var k :| 0 <= k < |z.calls| && z.calls[k] == c;
        assert k != l.index ==> c in y.calls;
      }
      if c0.biz in y.store.rows {
        assert Reserved(y, c0.biz);
      }
    }
  }

  /** Under the ordinary conditions the clamp GREATEST(locked - x, 0) decides nothing: whatever a
      withdrawal or an unlock releases is really there. */
  lemma ReleasesWhatIsThere(opening: Store, y: System, i: nat)
    requires Invariant(opening, y) && AllReserved(y) && Orderly(y) && i < |y.calls|
    requires y.calls[i].biz in y.store.rows
    requires y.calls[i].pc.Free? || (y.calls[i].pc.Apply? && y.calls[i].op.Transfer?)
    ensures y.calls[i].amount <= y.store.rows[y.calls[i].biz].locked
  {
    HeldFits(y, i);
    assert CallOk(y.calls[i]) && y.calls[i] in y.calls;
  }

  predicate AlwaysOrdinary(y: System, schedule: seq<Label>)
    requires Legal(y, schedule)
    decreases |schedule|
  {
    schedule != [] ==> Ordinary(y, schedule[0]) && AlwaysOrdinary(Next(y, schedule[0]), schedule[1..])
  }

  /** Under the ordinary conditions no interleaving of transfers ever trespasses. */
  lemma {:induction false} OrdinaryRunsNeverTrespass(opening: Store, y: System, schedule: seq<Label>)
    requires Invariant(opening, y) && Orderly(y) && AllReserved(y)
    requires Legal(y, schedule) && AlwaysOrdinary(y, schedule)
    ensures NeverTrespasses(y, schedule)
    decreases |schedule|
  {
    if schedule != [] {
      OrderlyStep(opening, y, schedule[0]);
      StepKeepsReservationsIff(opening, y, schedule[0]);
      InvariantStep(opening, y, schedule[0]);
      OrdinaryRunsNeverTrespass(opening, Next(y, schedule[0]), schedule[1..]);
    }
  }

  // ---- the whole guarantee ----

  /** Steps that end a call and leave it holding its lock. */
  predicate Retains(y: System, l: Label)
    requires Enabled(y, l)
  {
    l.Act? &&
    var c := y.calls[l.index];
    var c' := StepCall(y.store, c, l.outcome).1;
    c'.pc.Done? && c'.held > 0
  }

  predicate NoneRetained(y: System) { forall c | c in y.calls && c.pc.Done? :: c.held == 0 }

  lemma StepRetainsNothing(opening: Store, y: System, l: Label)
    requires Invariant(opening, y) && Enabled(y, l) && NoneRetained(y) && !Retains(y, l)
    ensures NoneRetained(Next(y, l))
  {
    if l.Act? {
      var z := Next(y, l);
      StepKeepsCallOk(y.store, y.calls[l.index], l.outcome);
      forall c | c in z.calls && c.pc.Done? ensures c.held == 0 {
        var k :| 0 <= k < |z.calls| && z.calls[k] == c;
        assert k != l.index ==> c in y.calls;
      }
    }
  }

  /** A transfer whose reference no other recording call shares never finds it recorded. */
  lemma FreshReferenceIsNeverFound(opening: Store, y: System, i: nat)
    requires Invariant(opening, y) && i < |y.calls| && !y.calls[i].inserted
    requires !HasRef(opening.table, y.calls[i].ref)
    requires forall j | 0 <= j < |y.calls| && j != i && Records(y.calls[j].op) :: y.calls[j].ref != y.calls[i].ref
    ensures !HasRef(y.store.table, y.calls[i].ref)
  {
    var r := y.calls[i].ref;
    forall c | c in y.calls ensures WriterOf(r)(c) == 0 {
      var k :| 0 <= k < |y.calls| && y.calls[k] == c;
      assert CallOk(c);
    }
    var zero := (c: Call) => 0;
    SumCongruent(y.calls, WriterOf(r), zero);
    SumZero(y.calls, zero);
    OccursIffHasRef(opening.table, r);
    OccursIffHasRef(y.store.table, r);
    assert Occurrences(y.store, r) == Occurrences(opening, r) + Sum(y.calls, WriterOf(r));
  }

  /** The conditions of the guarantee, told from the label and the system before it: transfers,
      deposits and reads only, each transfer with a reference no recording call has used; no fee; the
      updates that reserve and debit are not torn; a withdrawal's insert succeeds and so does a
      deposit's second one; unlocks succeed. */
  predicate Plain(y: System, l: Label)
    requires Enabled(y, l)
  {
    match l
    case Arrive(op, _, ref, _, _) =>
      && !op.Withdrawal? && !op.Release?
      && (op.Transfer? ==> !HasRef(y.store.table, ref))
      && (Records(op) ==> forall c | c in y.calls && Records(c.op) && (op.Transfer? || c.op.Transfer?) :: c.ref != ref)
    case Act(i, o) =>
      var c := y.calls[i];
      && (c.pc.Apply? || c.pc.Reserve? ==> !o.TornUpdate?)
      && (c.pc.Insert? && c.op.Transfer? ==> o.Good?)
      && (c.pc.Retry? ==> o.Good? && !HasRef(y.store.table, c.ref))
      && (c.pc.Free? ==> o.Good?)
      && (o.Settled? ==> o.fee == 0)
    case Expire(_) => true
  }

  predicate AlwaysPlain(y: System, schedule: seq<Label>)
    requires Legal(y, schedule)
    decreases |schedule|
  {
    schedule != [] ==> Plain(y, schedule[0]) && AlwaysPlain(Next(y, schedule[0]), schedule[1..])
  }

  /** Every transfer has its reference to itself. */
  predicate OwnReferences(opening: Store, y: System)
  {
    forall i | 0 <= i < |y.calls| && y.calls[i].op.Transfer? ::
      && !HasRef(opening.table, y.calls[i].ref)
      && forall j | 0 <= j < |y.calls| && j != i && Records(y.calls[j].op) :: y.calls[j].ref != y.calls[i].ref
  }

  /** A transfer that has reserved works on a row that exists. */
  predicate OnARow(rows: map<BusinessId, Wallet>, c: Call)
  {
    c.op.Transfer? && !c.pc.Check? && !c.pc.Reserve? && !c.pc.Done? ==> c.biz in rows
  }

  /** What every state of a plain run satisfies. */
  ghost predicate Guaranteed(opening: Store, y: System)
  {
    && Invariant(opening, y) && AllReserved(y) && Orderly(y) && NoneRetained(y) && OwnReferences(opening, y)
    && forall c | c in y.calls :: OnARow(y.store.rows, c)
  }

  lemma StepStaysOnARow(s: Store, c: Call, o: Outcome)
    requires CallOk(c) && !c.pc.Done? && OnARow(s.rows, c)
    ensures OnARow(s.rows, StepCall(s, c, o).1)
  {
  }

  lemma PlainIsOrdinary(opening: Store, y: System, l: Label)
    requires Guaranteed(opening, y) && Enabled(y, l) && Plain(y, l)
    ensures Ordinary(y, l)
  {
    if l.Act? {
      var c := y.calls[l.index];
      assert CallOk(c) && c in y.calls;
      if c.pc.Insert? && c.op.Transfer? {
        FreshReferenceIsNeverFound(opening, y, l.index);
      }
    }
  }

  lemma PlainRetainsNothing(opening: Store, y: System, l: Label)
    requires Guaranteed(opening, y) && Enabled(y, l) && Plain(y, l)
    ensures !Retains(y, l)
  {
    if l.Act? {
      var c := y.calls[l.index];
      assert CallOk(c) && c in y.calls;
      RetainedExactlyWhen(opening, y, l.index, l.outcome);
      StepKeepsCallOk(y.store, c, l.outcome);
      if c.pc.Lookup? && c.op.Transfer? {
        FreshReferenceIsNeverFound(opening, y, l.index);
      }
    }
  }

  lemma PlainKeepsReferences(opening: Store, y: System, l: Label)
    requires Guaranteed(opening, y) && Enabled(y, l) && Plain(y, l)
    ensures OwnReferences(opening, Next(y, l))
  {
    match l
    case Arrive(op, biz, ref, amount, fee) =>
      OccursIffHasRef(opening.table, ref);
      OccursIffHasRef(y.store.table, ref);
      SumNonNegative(y.calls, WriterOf(ref));
      assert Occurrences(y.store, ref) == Occurrences(opening, ref) + Sum(y.calls, WriterOf(ref));
      forall i | 0 <= i < |y.calls| ensures y.calls[i] in y.calls {}
    case Act(i, o) => StepKeepsNames(y.store, y.calls[i], o);
    case Expire(_) =>
  }

  lemma PlainStaysOnRows(opening: Store, y: System, l: Label)
    requires Guaranteed(opening, y) && Enabled(y, l)
    ensures forall c | c in Next(y, l).calls :: OnARow(Next(y, l).store.rows, c)
  {
    if l.Act? {
      var c0 := y.calls[l.index];
      assert CallOk(c0) && c0 in y.calls;
      StepKeepsRows(y.store, c0, l.outcome);
      StepStaysOnARow(y.store, c0, l.outcome);
      forall c | c in Next(y, l).calls ensures OnARow(Next(y, l).store.rows, c) {
        var k :| 0 <= k < |Next(y, l).calls| && Next(y, l).calls[k] == c;
        assert k != l.index ==> c in y.calls;
      }
    }
  }

  lemma PlainStep(opening: Store, y: System, l: Label)
    requires Guaranteed(opening, y) && Enabled(y, l) && Plain(y, l)
    ensures Guaranteed(opening, Next(y, l))
  {
    PlainIsOrdinary(opening, y, l);
    PlainRetainsNothing(opening, y, l);
    OrderlyStep(opening, y, l);
    StepKeepsReservationsIff(opening, y, l);
    InvariantStep(opening, y, l);
    StepRetainsNothing(opening, y, l);
    PlainKeepsReferences(opening, y, l);
    PlainStaysOnRows(opening, y, l);
  }

  lemma {:induction false} PlainRun(opening: Store, y: System, schedule: seq<Label>)
    requires Guaranteed(opening, y) && Legal(y, schedule) && AlwaysPlain(y, schedule)
    ensures Guaranteed(opening, Run(y, schedule))
    decreases |schedule|
  {
    if schedule != [] {
      PlainStep(opening, y, schedule[0]);
      PlainRun(opening, Next(y, schedule[0]), schedule[1..]);
    }
  }

  lemma EveryPlainStateIsGuaranteed(opening: Store, schedule: seq<Label>)
    requires UniqueReferences(opening) && AllReserved(System(opening, []))
    requires Legal(System(opening, []), schedule) && AlwaysPlain(System(opening, []), schedule)
    ensures Guaranteed(opening, Run(System(opening, []), schedule))
  {
    Reachable(opening, []);
    PlainRun(opening, System(opening, []), schedule);
  }

  /** The reservation guarantee: in every state of every plain interleaving `locked` is the sum of
      what transfers hold in flight and is covered by the balance, and once all calls have returned
      it is zero. */
  lemma ReservationGuarantee(opening: Store, schedule: seq<Label>, b: BusinessId)
    requires UniqueReferences(opening) && AllReserved(System(opening, []))
    requires Legal(System(opening, []), schedule) && AlwaysPlain(System(opening, []), schedule)
    requires b in opening.rows
    ensures var y := Run(System(opening, []), schedule);
            && b in y.store.rows
            && y.store.rows[b].locked == Sum(y.calls, HeldBy(b))
            && 0 <= y.store.rows[b].locked <= y.store.rows[b].balance
            && (Quiescent(y) ==> y.store.rows[b].locked == 0)
  {
    var y := Run(System(opening, []), schedule);
    EveryPlainStateIsGuaranteed(opening, schedule);
    assert Reserved(y, b);
    SumNonNegative(y.calls, HeldBy(b));
    if Quiescent(y) {
      var zero := (c: Call) => 0;
      SumCongruent(y.calls, HeldBy(b), zero);
      SumZero(y.calls, zero);
    }
  }

  /** In no state of a plain interleaving does the clamp GREATEST(locked - x, 0) decide anything:
      whatever a withdrawal or an unlock is about to release is really there. */
  lemma ClampNeverFires(opening: Store, schedule: seq<Label>, i: nat)
    requires UniqueReferences(opening) && AllReserved(System(opening, []))
    requires Legal(System(opening, []), schedule) && AlwaysPlain(System(opening, []), schedule)
    ensures var y := Run(System(opening, []), schedule);
            i < |y.calls| && (y.calls[i].pc.Free? || (y.calls[i].pc.Apply? && Debits(y.calls[i].op))) ==>
              y.calls[i].biz in y.store.rows && y.calls[i].amount <= y.store.rows[y.calls[i].biz].locked
  {
    var y := Run(System(opening, []), schedule);
    EveryPlainStateIsGuaranteed(opening, schedule);
    if i < |y.calls| && (y.calls[i].pc.Free? || (y.calls[i].pc.Apply? && Debits(y.calls[i].op))) {
      assert y.calls[i] in y.calls && CallOk(y.calls[i]);
      ReleasesWhatIsThere(opening, y, i);
    }
  }

  /** In no state of a plain interleaving is a transfer that the provider has settled refused for
      lack of balance: unless the database fails, its balance check and its debit both pass. */
  lemma SettledTransferIsCovered(opening: Store, schedule: seq<Label>, i: nat)
    requires UniqueReferences(opening) && AllReserved(System(opening, []))
    requires Legal(System(opening, []), schedule) && AlwaysPlain(System(opening, []), schedule)
    ensures var y := Run(System(opening, []), schedule);
            i < |y.calls| && y.calls[i].op.Transfer? && (y.calls[i].pc.Read? || y.calls[i].pc.Apply?) ==>
              StepCall(y.store, y.calls[i], Good).1.pc == if y.calls[i].pc.Read? then Apply else Insert
  {
    var y := Run(System(opening, []), schedule);
    EveryPlainStateIsGuaranteed(opening, schedule);
    if i < |y.calls| && y.calls[i].op.Transfer? && (y.calls[i].pc.Read? || y.calls[i].pc.Apply?) {
      assert y.calls[i] in y.calls;
      CoveredWhenReserved(opening, y, i);
    }
  }
}
