/** What a wallet call is told, records, posts and sends, from the store before it and its answers; and
    what the callers of one reference are told under every interleaving. */
module WalletOutcomes {
  import opened Common
  import opened WalletRows
  import opened WalletProtocol
  import opened WalletConservation
  import opened WalletServices
  import opened WalletCache

  // ---- what a lone call is told ----

  predicate PastLookup(pc: Pc)
  {
    pc.Read? || pc.Apply? || pc.Insert? || pc.Retry? || pc.Rollback? || pc.Post? || pc.PostFee? || pc.Invalidate?
    || pc.Free? || pc.Done?
  }

  /** When it is over, it has succeeded exactly if it has recorded. */
  predicate ToldByRecord(c: Call) { c.pc.Done? ==> (c.pc == Done(Succeeded) <==> c.inserted) }

  lemma StepToldByRecord(s: Store, c: Call, o: Outcome)
    requires CallOk(c) && PastLookup(c.pc) && !c.pc.Done?
    ensures var c' := StepCall(s, c, o).1; PastLookup(c'.pc) && ToldByRecord(c')
  {
    StepKeepsCallOk(s, c, o);
  }

  lemma {:induction false} SoloToldByRecord(s: Store, c: Call, env: Environment)
    requires CallOk(c) && PastLookup(c.pc) && ToldByRecord(c)
    ensures var c' := Solo(s, c, env).1; c'.pc.Done? && (c'.pc == Done(Succeeded) <==> c'.inserted)
    decreases Rank(c.pc)
  {
    if !c.pc.Done? {
      SoloStep(s, c, env);
      StepLowersRank(s, c, env(c.pc));
      StepKeepsCallOk(s, c, env(c.pc));
      StepToldByRecord(s, c, env(c.pc));
      var (s', c') := StepCall(s, c, env(c.pc));
      SoloToldByRecord(s', c', env);
    }
  }

  /** From its lookup on, a call succeeds if it finds its reference recorded, and otherwise if it records it. */
  lemma LookupVerdict(s: Store, c: Call, env: Environment)
    requires CallOk(c) && c.pc.Lookup?
    ensures var (s', c') := Solo(s, c, env);
            && c'.pc.Done?
            && (c'.pc == Done(Succeeded) <==> Known(s, c.ref, env(Lookup)) || c'.inserted)
            && (Known(s, c.ref, env(Lookup)) ==> s' == s && !c'.inserted && c'.applied == 0)
  {
    SoloStep(s, c, env);
    StepKeepsCallOk(s, c, env(Lookup));
    var (s', c') := StepCall(s, c, env(Lookup));
    if !Known(s, c.ref, env(Lookup)) {
      SoloToldByRecord(s', c', env);
    }
  }

  /** A transfer gets to its lookup, with the table as it was, exactly when it settles. */
  lemma SettlesOrFails(s: Store, b: BusinessId, ref: Reference, amount: nat, env: Environment)
    ensures var c := NewCall(Transfer, b, ref, amount, 0);
            if Settles(s, b, ref, amount, env)
            then exists s1: Store, c1 :: AtLookup(s, s1, c, c1) && Solo(s, c, env) == Solo(s1, c1, env)
            else Solo(s, c, env).1.pc == Done(Failed)
  {
    var c := NewCall(Transfer, b, ref, amount, 0);
    SoloStep(s, c, env);
    var (s1, c1) := StepCall(s, c, env(Check));
    if c1.pc.Reserve? {
      SoloStep(s1, c1, env);
      var (s2, c2) := StepCall(s1, c1, env(Reserve));
      if c2.pc.Create? {
        CreatedSettlesOrFails(s2, c2, env);
        assert s2.table == s.table && s2.transfers == s.transfers;
        if env(Create).Good? && ref !in s2.transfers && env(Provider).Settled? {
          var s3: Store, c3 :| AtLookup(s2, s3, c2, c3) && Solo(s2, c2, env) == Solo(s3, c3, env);
          assert AtLookup(s, s3, c, c3);
        }
      }
    }
  }

  predicate AtLookup(s: Store, s1: Store, c: Call, c1: Call)
  {
    s1.table == s.table && c1.pc.Lookup? && c1.ref == c.ref && CallOk(c1)
  }

  lemma CreatedSettlesOrFails(s: Store, c: Call, env: Environment)
    requires CallOk(c) && c.pc.Create?
    ensures if env(Create).Good? && c.ref !in s.transfers && env(Provider).Settled?
            then exists s1: Store, c1 :: AtLookup(s, s1, c, c1) && Solo(s, c, env) == Solo(s1, c1, env)
            else Solo(s, c, env).1.pc == Done(Failed)
  {
    SoloStep(s, c, env);
    StepKeepsCallOk(s, c, env(Create));
    var (s1, c1) := StepCall(s, c, env(Create));
    if c1.pc.Provider? {
      SoloStep(s1, c1, env);
      StepKeepsCallOk(s1, c1, env(Provider));
      var (s2, c2) := StepCall(s1, c1, env(Provider));
      if c2.pc.Free? {
        SoloStep(s2, c2, env);
      } else {
        assert AtLookup(s, s2, c, c2);
      }
    } else {
      SoloStep(s1, c1, env);
    }
  }

  /** What a deposit, a withdrawal or a transfer is told, from the store before it and its answers: it
      succeeds exactly when it finds its reference recorded, or moves the money, its update is not torn,
      and records it. */
  lemma VerdictIff(s: Store, op: Op, b: BusinessId, ref: Reference, amount: nat, fee: nat, env: Environment)
    requires Records(op)
    ensures var c' := Solo(s, NewCall(op, b, ref, amount, fee), env).1;
            c'.pc == Done(Succeeded) <==>
              || ((op.Transfer? ==> Settles(s, b, ref, amount, env)) && Known(s, ref, env(Lookup)))
              || (Moves(s, op, b, ref, amount, fee, env) && !env(Apply).TornUpdate? && Inserts(s, op, ref, env))
  {
    var c := NewCall(op, b, ref, amount, fee);
    WhereACallEnds(s, op, b, ref, amount, fee, env);
    if op.Transfer? {
      SettlesOrFails(s, b, ref, amount, env);
      TransferIsNew(b, ref, amount, fee);
      if Settles(s, b, ref, amount, env) {
        var s1: Store, c1 :| AtLookup(s, s1, NewCall(Transfer, b, ref, amount, 0), c1)
                       && Solo(s, NewCall(Transfer, b, ref, amount, 0), env) == Solo(s1, c1, env);
        LookupVerdict(s1, c1, env);
      }
    } else {
      LookupVerdict(s, c, env);
    }
  }

  lemma TransferIsNew(b: BusinessId, ref: Reference, amount: nat, fee: nat)
    ensures NewCall(Transfer, b, ref, amount, fee) == NewCall(Transfer, b, ref, amount, 0)
  {
  }

  /** A redelivered deposit, or a repeated withdrawal, succeeds and changes nothing. */
  lemma RedeliverySucceeds(s: Store, op: Op, b: BusinessId, ref: Reference, amount: nat, fee: nat, env: Environment)
    requires op.Deposit? || op.Withdrawal?
    requires env(Lookup).Good? && HasRef(s.table, ref)
    ensures var (s', c') := Solo(s, NewCall(op, b, ref, amount, fee), env);
            s' == s && c'.pc == Done(Succeeded) && c'.applied == 0 && !c'.inserted
  {
    LookupVerdict(s, NewCall(op, b, ref, amount, fee), env);
  }

  /** A transfer that the provider has settled goes undebited exactly when its withdrawal finds the
      reference recorded, or does not get to its update, or cannot record it and is rolled back; the
      payout stands all the same. */
  lemma PaidWithoutDebitIff(s: Store, b: BusinessId, ref: Reference, amount: nat, env: Environment)
    requires Settles(s, b, ref, amount, env) && amount + env(Provider).fee > 0
    ensures var (s', c') := Solo(s, NewCall(Transfer, b, ref, amount, 0), env);
            && b in s'.rows
            && (s'.rows[b].balance == s.rows[b].balance <==>
                 || !Moves(s, Transfer, b, ref, amount, 0, env)
                 || (!env(Apply).TornUpdate? && !Inserts(s, Transfer, ref, env) && TakesEffect(env(Rollback))))
            && (s'.rows[b].balance != s.rows[b].balance ==>
                 s'.rows[b].balance == s.rows[b].balance - amount - env(Provider).fee)
  {
    WhereACallEnds(s, Transfer, b, ref, amount, 0, env);
    SoloTraces(s, NewCall(Transfer, b, ref, amount, 0), env);
  }

  /** A call run alone moves the balance by what it applied and records its reference when it inserts. */
  lemma {:induction false} SoloTraces(s: Store, c: Call, env: Environment)
    requires CallOk(c) && c.biz in s.rows
    ensures var (s', c') := Solo(s, c, env);
            && CallOk(c') && c.biz in s'.rows
            && s'.rows[c.biz].balance - s.rows[c.biz].balance == c'.applied - c.applied
            && (c.inserted ==> c'.inserted)
            && forall r :: HasRef(s'.table, r) <==> HasRef(s.table, r) || (r == c.ref && c'.inserted && !c.inserted)
    decreases Rank(c.pc)
  {
    if !c.pc.Done? {
      var o := env(c.pc);
      var (s', c') := StepCall(s, c, o);
      SoloStep(s, c, env);
      StepLowersRank(s, c, o);
      StepKeepsCallOk(s, c, o);
      StepKeepsNames(s, c, o);
      StepBalances(s, c, o, c.biz);
      StepRecords(s, c, o);
      SoloTraces(s', c', env);
    }
  }

  lemma StepRecords(s: Store, c: Call, o: Outcome)
    requires CallOk(c) && !c.pc.Done?
    ensures var (s', c') := StepCall(s, c, o);
            && (c.inserted ==> c'.inserted)
            && forall r :: HasRef(s'.table, r) <==> HasRef(s.table, r) || (r == c.ref && c'.inserted && !c.inserted)
  {
    if c.pc.Insert? || c.pc.Retry? {
      RefsAppend(s.table, Row(c.ref, c.biz, Delta(c)));
    } else {
      OnlyInsertWrites(s, c, o);
    }
  }

  lemma RefsAppend(table: seq<Row>, row: Row)
    ensures forall r :: HasRef(table + [row], r) <==> HasRef(table, r) || r == row.ref
  {
    assert row in table + [row];
    assert forall x | x in table :: x in table + [row];
  }

  // ---- what the callers are told under every interleaving ----

  /** The call looks up a recorded reference, and the lookup works. */
  predicate Finds(y: System, l: Label, i: nat)
  {
    l.Act? && l.index == i && l.outcome.Good? && i < |y.calls| && y.calls[i].pc.Lookup? && HasRef(y.store.table, y.calls[i].ref)
  }

  predicate EverFinds(y: System, schedule: seq<Label>, i: nat)
    requires Legal(y, schedule)
    decreases |schedule|
  {
    schedule != [] && (Finds(y, schedule[0], i) || EverFinds(Next(y, schedule[0]), schedule[1..], i))
  }

  /** The call has found its reference: it is over and has succeeded, without moving or recording anything. */
  predicate Found(y: System, i: nat)
  {
    i < |y.calls| && Records(y.calls[i].op) && y.calls[i].pc == Done(Succeeded) && !y.calls[i].inserted
  }

  lemma CallFoundIff(s: Store, c: Call, o: Outcome)
    requires CallOk(c) && !c.pc.Done? && Records(c.op)
    ensures var (s', c') := StepCall(s, c, o);
            var finds := o.Good? && c.pc.Lookup? && HasRef(s.table, c.ref);
            && (c'.pc == Done(Succeeded) && !c'.inserted <==> finds)
            && (finds ==> s' == s && c' == c.(pc := Done(Succeeded)))
  {
    StepKeepsCallOk(s, c, o);
  }

  lemma StepFoundIff(y: System, l: Label, i: nat)
    requires Enabled(y, l) && forall c | c in y.calls :: CallOk(c)
    ensures Found(Next(y, l), i) <==> Found(y, i) || Finds(y, l, i)
    ensures Finds(y, l, i) ==> Next(y, l).store == y.store
  {
    if l.Act? {
      var c := y.calls[l.index];
      assert CallOk(c);
      StepKeepsNames(y.store, c, l.outcome);
      if Records(c.op) {
        CallFoundIff(y.store, c, l.outcome);
      }
    }
  }

  /** Over every interleaving, a recording call has succeeded without recording anything if and only if
      it once looked up a reference that was recorded then; that step changed nothing. */
  lemma {:induction false} FoundIff(opening: Store, y: System, schedule: seq<Label>, i: nat)
    requires Invariant(opening, y) && Legal(y, schedule)
    ensures Found(Run(y, schedule), i) <==> Found(y, i) || EverFinds(y, schedule, i)
    decreases |schedule|
  {
    if schedule != [] {
      StepFoundIff(y, schedule[0], i);
      InvariantStep(opening, y, schedule[0]);
      FoundIff(opening, Next(y, schedule[0]), schedule[1..], i);
    }
  }

  /** So a finished call of any interleaving has succeeded if and only if it recorded its reference or
      found it recorded: a redelivery that looks it up is told so, and nobody else is. */
  lemma InterleavedVerdictIff(opening: Store, schedule: seq<Label>, i: nat)
    requires UniqueReferences(opening) && Legal(System(opening, []), schedule)
    requires var y := Run(System(opening, []), schedule); i < |y.calls| && y.calls[i].pc.Done? && Records(y.calls[i].op)
    ensures var c := Run(System(opening, []), schedule).calls[i];
            c.pc == Done(Succeeded) <==> c.inserted || EverFinds(System(opening, []), schedule, i)
  {
    Reachable(opening, []);
    Reachable(opening, schedule);
    FoundIff(opening, System(opening, []), schedule, i);
    assert CallOk(Run(System(opening, []), schedule).calls[i]);
  }

  // ---- what is sent to the provider ----

  /** The step asks the provider to pay out under the reference. */
  predicate Sends(y: System, l: Label, r: Reference)
    requires Enabled(y, l)
  {
    l.Act? && y.calls[l.index].pc.Provider? && y.calls[l.index].ref == r
  }

  function TimesSent(y: System, schedule: seq<Label>, r: Reference): nat
    requires Legal(y, schedule)
    decreases |schedule|
  {
    if schedule == [] then 0
    else (if Sends(y, schedule[0], r) then 1 else 0) + TimesSent(Next(y, schedule[0]), schedule[1..], r)
  }

  /** Calls about to ask the provider. */
  function AboutToSend(r: Reference): Call -> int { (c: Call) => if c.pc.Provider? && c.ref == r then 1 else 0 }

  function Taken(s: Store, r: Reference): int { if r in s.transfers then 1 else 0 }

  lemma StepTakes(s: Store, c: Call, o: Outcome, r: Reference)
    requires CallOk(c) && !c.pc.Done?
    ensures var (s', c') := StepCall(s, c, o);
            Taken(s', r) - Taken(s, r)
            == AboutToSend(r)(c') - AboutToSend(r)(c) + if c.pc.Provider? && c.ref == r then 1 else 0
  {
    StepKeepsNames(s, c, o);
    if !c.pc.Create? && !c.pc.Provider? {
      OtherLeaveTransfers(s, c, o);
    }
  }

  lemma OtherLeaveTransfers(s: Store, c: Call, o: Outcome)
    requires CallOk(c) && !c.pc.Done? && !c.pc.Create? && !c.pc.Provider?
    ensures StepCall(s, c, o).0.transfers == s.transfers && !StepCall(s, c, o).1.pc.Provider?
  {
  }

  lemma {:induction false} SentAndTaken(opening: Store, y: System, schedule: seq<Label>, r: Reference)
    requires Invariant(opening, y) && Legal(y, schedule)
    ensures var z := Run(y, schedule);
            TimesSent(y, schedule, r) + Sum(z.calls, AboutToSend(r)) - Sum(y.calls, AboutToSend(r))
            == Taken(z.store, r) - Taken(y.store, r)
    decreases |schedule|
  {
    if schedule != [] {
      var z := Next(y, schedule[0]);
      match schedule[0] {
        case Arrive(op, b, ref, amount, fee) => SumAppend(y.calls, NewCall(op, b, ref, amount, fee), AboutToSend(r));
        case Act(i, o) =>
          assert CallOk(y.calls[i]);
          StepTakes(y.store, y.calls[i], o, r);
          SumUpdate(y.calls, i, StepCall(y.store, y.calls[i], o).1, AboutToSend(r));
        case Expire(_) =>
      }
      InvariantStep(opening, y, schedule[0]);
      SentAndTaken(opening, z, schedule[1..], r);
    }
  }

  /** Under every interleaving the provider is asked at most once to pay out under a reference, and not
      at all under one that was taken before. */
  lemma SentAtMostOnce(opening: Store, schedule: seq<Label>, r: Reference)
    requires UniqueReferences(opening) && Legal(System(opening, []), schedule)
    ensures TimesSent(System(opening, []), schedule, r) <= 1
    ensures r in opening.transfers ==> TimesSent(System(opening, []), schedule, r) == 0
  {
    Reachable(opening, []);
    SentAndTaken(opening, System(opening, []), schedule, r);
    SumNonNegative(Run(System(opening, []), schedule).calls, AboutToSend(r));
  }
}
