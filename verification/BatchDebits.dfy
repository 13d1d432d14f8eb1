/** What the wallet makes of the calls a batch sends it: each withdrawal looks its reference up, checks
    the balance, and is dropped without a word when either is against it. */
module BatchDebits {
  import opened Common
  import opened WalletRows
  import opened WalletProtocol
  import opened WalletConservation
  import opened WalletServices
  import opened WalletCache
  import opened WalletOutcomes
  import BatchTransfers

  type Ask = BatchTransfers.WalletCall

  predicate Sendable(calls: seq<Ask>) { forall i | 0 <= i < |calls| :: calls[i].amount >= 0 }

  /** The wallet call the batch makes, without a fee. */
  function CallFor(b: BusinessId, ask: Ask): Call
    requires ask.amount >= 0
  {
    match ask
    case Withdraw(ref, amount) => NewCall(Withdrawal, b, ref, amount, 0)
    case Unlock(amount) => NewCall(Release, b, "", amount, 0)
  }

  /** The store after the calls, made one after the other; whatever one returns is ignored. */
  function Served(s: Store, b: BusinessId, calls: seq<Ask>, answers: nat -> Environment): Store
    requires Sendable(calls)
  {
    if calls == [] then s
    else
      var n := |calls| - 1;
      Solo(Served(s, b, calls[..n], answers), CallFor(b, calls[n]), answers(n)).0
  }

  /** What the calls take off the balance. */
  function Debited(s: Store, b: BusinessId, calls: seq<Ask>, answers: nat -> Environment): int
    requires Sendable(calls) && b in s.rows && b in Served(s, b, calls, answers).rows
  {
    s.rows[b].balance - Served(s, b, calls, answers).rows[b].balance
  }

  function Asked(calls: seq<Ask>): int { Sum(calls, BatchTransfers.Withdrawn()) }

  // ---- one call ----

  /** The withdrawal leaves money taken: its update takes effect and is recorded, or is torn, or is not
      rolled back. */
  predicate Takes(s: Store, b: BusinessId, ask: Ask, env: Environment)
  {
    && ask.Withdraw? && ask.amount >= 0 && Moves(s, Withdrawal, b, ask.reference, ask.amount, 0, env)
    && (env(Apply).TornUpdate? || Inserts(s, Withdrawal, ask.reference, env) || !TakesEffect(env(Rollback)))
  }

  predicate Writes(s: Store, b: BusinessId, ask: Ask, env: Environment)
  {
    && ask.Withdraw? && ask.amount >= 0 && Moves(s, Withdrawal, b, ask.reference, ask.amount, 0, env)
    && !env(Apply).TornUpdate? && Inserts(s, Withdrawal, ask.reference, env)
  }

  lemma OneServed(s: Store, b: BusinessId, ask: Ask, env: Environment)
    requires ask.amount >= 0 && b in s.rows
    ensures var s' := Solo(s, CallFor(b, ask), env).0;
            && b in s'.rows
            && s'.rows[b].balance == s.rows[b].balance - (if Takes(s, b, ask, env) then ask.amount else 0)
            && forall r :: HasRef(s'.table, r) <==> HasRef(s.table, r) || (Writes(s, b, ask, env) && r == ask.reference)
  {
    var c := CallFor(b, ask);
    SoloTraces(s, c, env);
    match ask
    case Withdraw(ref, amount) => WhereACallEnds(s, Withdrawal, b, ref, amount, 0, env);
    case Unlock(amount) => WhereACallEnds(s, Release, b, "", amount, 0, env);
  }

  /** The balance does not cover the withdrawal, or there is no wallet: whatever is answered, nothing at
      all changes, and the batch is not told. */
  lemma UncoveredIsSkipped(s: Store, b: BusinessId, ref: Reference, amount: nat, env: Environment)
    requires b in s.rows ==> s.rows[b].balance < amount
    ensures Solo(s, NewCall(Withdrawal, b, ref, amount, 0), env).0 == s
  {
    var c := NewCall(Withdrawal, b, ref, amount, 0);
    SoloStep(s, c, env);
    var (s', c') := StepCall(s, c, env(Lookup));
    if c'.pc.Read? {
      SoloStep(s', c', env);
    }
  }

  /** So does a withdrawal whose reference is found recorded. */
  lemma RecordedIsSkipped(s: Store, b: BusinessId, ref: Reference, amount: nat, env: Environment)
    requires env(Lookup).Good? && HasRef(s.table, ref)
    ensures Solo(s, NewCall(Withdrawal, b, ref, amount, 0), env).0 == s
  {
    SoloStep(s, NewCall(Withdrawal, b, ref, amount, 0), env);
  }

  // ---- many calls, whatever is answered ----

  lemma {:induction false} ServedBalance(s: Store, b: BusinessId, calls: seq<Ask>, answers: nat -> Environment)
    requires Sendable(calls) && b in s.rows
    ensures var s' := Served(s, b, calls, answers);
            && b in s'.rows
            && Min(s.rows[b].balance, 0) <= s'.rows[b].balance <= s.rows[b].balance
            && s.rows[b].balance - s'.rows[b].balance <= Asked(calls)
  {
    if calls != [] {
      var n := |calls| - 1;
      ServedBalance(s, b, calls[..n], answers);
      OneServed(Served(s, b, calls[..n], answers), b, calls[n], answers(n));
    }
  }

  /** Whatever fails, the calls take no more than they ask for, and never bring a balance below zero. */
  lemma NeverMoreThanAsked(s: Store, b: BusinessId, calls: seq<Ask>, answers: nat -> Environment)
    requires Sendable(calls) && b in s.rows
    ensures b in Served(s, b, calls, answers).rows
    ensures 0 <= Debited(s, b, calls, answers) <= Min(Asked(calls), Max(s.rows[b].balance, 0))
  {
    ServedBalance(s, b, calls, answers);
  }

  // ---- many calls, answered well ----

  /** The statements that decide a withdrawal work; the postings and the cache may fail. */
  predicate Smooth(env: Environment)
  {
    && env(Read).Good? && env(Apply).Good? && env(Insert).Good?
    && (env(Lookup).Good? || TakesEffect(env(Rollback)))
  }

  /** Some withdrawal among the calls has this reference. */
  predicate Names(calls: seq<Ask>, ref: Reference)
  {
    exists i :: 0 <= i < |calls| && calls[i].Withdraw? && calls[i].reference == ref
  }

  lemma NamesAppend(calls: seq<Ask>, ask: Ask, ref: Reference)
    ensures Names(calls + [ask], ref) <==> Names(calls, ref) || (ask.Withdraw? && ask.reference == ref)
  {
    var all := calls + [ask];
    assert all[|calls|] == ask && forall i | 0 <= i < |calls| :: all[i] == calls[i];
    if i :| 0 <= i < |calls| && calls[i].Withdraw? && calls[i].reference == ref {
      assert all[i].Withdraw? && all[i].reference == ref;
    }
  }

  /** Not recorded before the calls, and not named by an earlier one. */
  predicate FirstOfItsName(table: seq<Row>, earlier: seq<Ask>, ask: Ask)
  {
    ask.Withdraw? && !HasRef(table, ask.reference) && !Names(earlier, ask.reference)
  }

  /** The amounts asked for with each new reference, the first time it is used. */
  function DueOnce(table: seq<Row>, calls: seq<Ask>): int
  {
    if calls == [] then 0
    else
      var n := |calls| - 1;
      DueOnce(table, calls[..n]) + if FirstOfItsName(table, calls[..n], calls[n]) then calls[n].amount else 0
  }

  /** Some withdrawal of a positive amount repeats a reference. */
  predicate Repeats(table: seq<Row>, calls: seq<Ask>)
  {
    exists k :: 0 <= k < |calls| && calls[k].Withdraw? && calls[k].amount > 0 && !FirstOfItsName(table, calls[..k], calls[k])
  }

  lemma RepeatsAppend(table: seq<Row>, calls: seq<Ask>, ask: Ask)
    ensures Repeats(table, calls + [ask]) <==>
      Repeats(table, calls) || (ask.Withdraw? && ask.amount > 0 && !FirstOfItsName(table, calls, ask))
  {
    var all := calls + [ask];
    assert all[..|calls|] == calls && all[|calls|] == ask;
    forall k | 0 <= k < |calls| ensures all[..k] == calls[..k] && all[k] == calls[k] {}
    if k :| 0 <= k < |calls| && calls[k].Withdraw? && calls[k].amount > 0 && !FirstOfItsName(table, calls[..k], calls[k]) {
      assert all[k].Withdraw? && all[k].amount > 0 && !FirstOfItsName(table, all[..k], all[k]);
    }
  }

  lemma {:induction false} DueOnceOfAsked(table: seq<Row>, calls: seq<Ask>)
    requires Sendable(calls)
    ensures 0 <= DueOnce(table, calls) <= Asked(calls)
    ensures DueOnce(table, calls) == Asked(calls) <==> !Repeats(table, calls)
  {
    if calls != [] {
      var n := |calls| - 1;
      assert calls[..n] + [calls[n]] == calls;
      DueOnceOfAsked(table, calls[..n]);
      RepeatsAppend(table, calls[..n], calls[n]);
    }
  }

  lemma SmoothlyServed(s: Store, b: BusinessId, ask: Ask, env: Environment)
    requires ask.amount >= 0 && b in s.rows && Smooth(env)
    ensures Takes(s, b, ask, env) <==> ask.Withdraw? && !HasRef(s.table, ask.reference) && ask.amount <= s.rows[b].balance
    ensures Writes(s, b, ask, env) <==> Takes(s, b, ask, env)
  {
  }

  /** With enough for every reference once, each is debited once, by the first call that names it. */
  lemma {:induction false} CoveredOnce(s: Store, b: BusinessId, calls: seq<Ask>, answers: nat -> Environment)
    requires Sendable(calls) && b in s.rows && forall k: nat :: Smooth(answers(k))
    requires DueOnce(s.table, calls) <= s.rows[b].balance
    ensures var s' := Served(s, b, calls, answers);
            && b in s'.rows && s'.rows[b].balance == s.rows[b].balance - DueOnce(s.table, calls)
            && forall r :: HasRef(s'.table, r) <==> HasRef(s.table, r) || Names(calls, r)
  {
    if calls != [] {
      var n := |calls| - 1;
      var front, ask := calls[..n], calls[n];
      assert front + [ask] == calls;
      CoveredOnce(s, b, front, answers);
      var before := Served(s, b, front, answers);
      OneServed(before, b, ask, answers(n));
      SmoothlyServed(before, b, ask, answers(n));
      forall r ensures Names(calls, r) <==> Names(front, r) || (ask.Withdraw? && ask.reference == r) {
        NamesAppend(front, ask, r);
      }
    }
  }

  /** The wallet is debited once for each new reference, by the amount of the first call that names it,
      if and only if the balance covers that. */
  lemma DebitedOncePerReferenceIff(s: Store, b: BusinessId, calls: seq<Ask>, answers: nat -> Environment)
    requires Sendable(calls) && b in s.rows && forall k: nat :: Smooth(answers(k))
    ensures b in Served(s, b, calls, answers).rows
    ensures var due := DueOnce(s.table, calls);
            Debited(s, b, calls, answers) == due <==> (due > 0 ==> due <= s.rows[b].balance)
  {
    ServedBalance(s, b, calls, answers);
    DueOnceOfAsked(s.table, calls);
    if DueOnce(s.table, calls) <= s.rows[b].balance {
      CoveredOnce(s, b, calls, answers);
    }
  }

  /** The wallet is debited all that is asked for if and only if the balance covers it and no positive
      withdrawal repeats a reference. */
  lemma DebitedInFullIff(s: Store, b: BusinessId, calls: seq<Ask>, answers: nat -> Environment)
    requires Sendable(calls) && b in s.rows && forall k: nat :: Smooth(answers(k))
    ensures b in Served(s, b, calls, answers).rows
    ensures Debited(s, b, calls, answers) == Asked(calls) <==>
      (Asked(calls) > 0 ==> Asked(calls) <= s.rows[b].balance) && !Repeats(s.table, calls)
  {
    ServedBalance(s, b, calls, answers);
    DueOnceOfAsked(s.table, calls);
    DebitedOncePerReferenceIff(s, b, calls, answers);
  }

  // ---- the calls made on the service ----

  /** The batch's loop over what it asks: the results of the wallet calls are dropped. */
  method ServeBatch(wallet: WalletService, b: BusinessId, calls: seq<Ask>, answers: nat -> Environment)
    requires wallet.Valid() && Sendable(calls)
    modifies wallet, wallet.repo, wallet.ledgerSvc
    ensures wallet.Valid()
    ensures wallet.Snapshot() == Served(old(wallet.Snapshot()), b, calls, answers)
  {
    for i := 0 to |calls|
      invariant wallet.Valid()
      invariant wallet.Snapshot() == Served(old(wallet.Snapshot()), b, calls[..i], answers)
    {
      assert calls[..i + 1][..i] == calls[..i];
      ghost var c := CallFor(b, calls[i]);
      match calls[i] {
        case Withdraw(ref, amount) =>
          var _, c' := wallet.RecordWithdrawal(c, b, ref, amount, 0, answers(i));
        case Unlock(amount) =>
          var c' := wallet.UnlockBalance(c, b, amount, answers(i));
      }
    }
    assert calls[..|calls|] == calls;
  }
}
